/**
 The limits of the no-lost-wakeup property: across domains, with exactly the machines on which it holds
 all the same; under overlapping masks, as two failing families; and for a CPU that sleeps without a look.
 */
module SchedLimits {
  import opened Wrappers
  import opened Domains
  import opened SchedModel
  import opened SchedPartition
  import opened SchedWakeup
  import opened SchedFlat

  ghost predicate Reachable(w: World, s: State)
    requires ValidWorld(w)
  {
    exists evs :: ValidRun(w, evs) && Reached(w, evs) == s
  }

  lemma ReachInitial(w: World)
    requires ValidWorld(w)
    ensures Reachable(w, Initial(w))
  {
    assert Reached(w, []) == Initial(w);
  }

  lemma ReachStep(w: World, s: State, ev: Event)
    requires ValidWorld(w) && WellFormed(w, s) && Reachable(w, s) && Enabled(w, s, ev)
    ensures Reachable(w, Step(w, s, ev))
  {
    var evs :| ValidRun(w, evs) && Reached(w, evs) == s;
    var evs' := evs + [ev];
    assert evs'[..|evs'| - 1] == evs;
    assert Reached(w, evs') == Step(w, s, ev);
  }

  /** An idle CPU, a queued task that may run there, and nobody on the way. */
  ghost predicate Stranded(w: World, s: State, c: nat, d: Dom)
    requires ValidWorld(w) && WellFormed(w, s)
  {
    && c < w.cfg.nrCpus && s.idle[c] && (exists i :: 0 <= i < |Dsq(s, d)| && c in w.masks[Dsq(s, d)[i].task])
    && (forall k :: 0 <= k < w.cfg.nrCpus ==> !s.kicked[k])
  }

  /** Some run ends with a task of domain `d` stranded beside CPU `c`. */
  ghost predicate StrandsAt(w: World, c: nat, d: Dom)
    requires ValidWorld(w)
  {
    exists s :: Reachable(w, s) && WellFormed(w, s) && Stranded(w, s, c, d)
  }

  // ---------------------------------------------------------------- states with one busy domain

  const FRESH_LITTLE: TaskCtx := TaskCtx(0, 0, 0, 0, Little, false)

  /** Storage of `n` tasks of domain `d`: none at all, or freshly initialised. */
  function CtxOf(n: nat, d: Dom): (r: seq<Option<TaskCtx>>)
    ensures |r| == n && forall p :: 0 <= p < n ==> DomIn(r, p) == d
  {
    seq(n, _ => if d == Little then Some(FRESH_LITTLE) else None)
  }

  /** All tasks have domain `d`, nothing runs, and only the queue of `d` is in use. */
  function Parked(n: nat, d: Dom, q: seq<Entry>, local: seq<seq<Entry>>, idle: seq<bool>, kicked: seq<bool>,
                  pending: set<nat>, runnable: set<nat>, st: Stats): State
  {
    State(CtxOf(n, d), if d == Little then [] else q, if d == Little then q else [], local,
          seq(|local|, _ => None), idle, kicked, pending, runnable, st)
  }

  ghost predicate ReachParked(w: World, d: Dom, q: seq<Entry>, local: seq<seq<Entry>>, idle: seq<bool>,
                              kicked: seq<bool>, pending: set<nat>, runnable: set<nat>)
    requires ValidWorld(w)
  {
    exists st :: Reachable(w, Parked(|w.masks|, d, q, local, idle, kicked, pending, runnable, st))
  }

  lemma ReachedFormed(w: World, s: State)
    requires ValidWorld(w) && Reachable(w, s)
    ensures WellFormed(w, s)
  {
  }

  function Empty(n: nat): seq<seq<Entry>> {
    seq(n, _ => [])
  }

  function Bits(n: nat, b: bool): seq<bool> {
    seq(n, _ => b)
  }

  /** The first `k` tasks initialised as LITTLE on a machine that does nothing else. */
  function Started(w: World, k: nat, st: Stats): State {
    var n := w.cfg.nrCpus;
    State(seq(|w.masks|, p => if p < k then Some(FRESH_LITTLE) else None), [], [], Empty(n), seq(n, _ => None),
          Bits(n, true), Bits(n, false), {}, {}, st)
  }

  lemma {:induction false} ReachStarted(w: World, k: nat) returns (st: Stats)
    requires ValidWorld(w) && w.cfg.mode != Flat && k <= |w.masks|
    ensures Reachable(w, Started(w, k, st))
  {
    if k == 0 {
      ReachInitial(w);
      st := Initial(w).stats;
      assert Initial(w) == Started(w, 0, st);
    } else {
      var before := ReachStarted(w, k - 1);
      var s, ev := Started(w, k - 1, before), InitTask(k - 1, None, true);
      ReachedFormed(w, s);
      ReachStep(w, s, ev);
      st := Step(w, s, ev).stats;
      assert s.ctx[k - 1 := Some(FRESH_LITTLE)] == Started(w, k, st).ctx;
      assert Step(w, s, ev) == Started(w, k, st);
    }
  }

  lemma ReachStart(w: World, d: Dom)
    requires ValidWorld(w) && Possible(w.cfg, d)
    ensures ReachParked(w, d, [], Empty(w.cfg.nrCpus), Bits(w.cfg.nrCpus, true), Bits(w.cfg.nrCpus, false), {}, {})
  {
    var n := w.cfg.nrCpus;
    if d == Big {
      ReachInitial(w);
      var s := Initial(w);
      assert s == Parked(|w.masks|, d, [], Empty(n), Bits(n, true), Bits(n, false), {}, {}, s.stats);
    } else {
      var st := ReachStarted(w, |w.masks|);
      assert Started(w, |w.masks|, st) == Parked(|w.masks|, d, [], Empty(n), Bits(n, true), Bits(n, false), {}, {}, st);
    }
  }

  lemma ArriveParked(w: World, d: Dom, q: seq<Entry>, local: seq<seq<Entry>>, idle: seq<bool>, kicked: seq<bool>,
                     pending: set<nat>, runnable: set<nat>, p: nat)
    requires ValidWorld(w) && ReachParked(w, d, q, local, idle, kicked, pending, runnable)
    requires p < |w.masks| && p !in runnable
    ensures ReachParked(w, d, q, local, idle, kicked, pending + {p}, runnable + {p})
  {
    var st :| Reachable(w, Parked(|w.masks|, d, q, local, idle, kicked, pending, runnable, st));
    var s := Parked(|w.masks|, d, q, local, idle, kicked, pending, runnable, st);
    ReachedFormed(w, s);
    ReachStep(w, s, Arrive(p));
    assert Step(w, s, Arrive(p)) == Parked(|w.masks|, d, q, local, idle, kicked, pending + {p}, runnable + {p}, st);
  }

  lemma WakeParked(w: World, d: Dom, q: seq<Entry>, local: seq<seq<Entry>>, idle: seq<bool>, kicked: seq<bool>,
                   pending: set<nat>, runnable: set<nat>, c: nat)
    requires ValidWorld(w) && ReachParked(w, d, q, local, idle, kicked, pending, runnable)
    requires c < w.cfg.nrCpus == |idle| && idle[c]
    ensures ReachParked(w, d, q, local, idle[c := false], kicked, pending, runnable)
  {
    var st :| Reachable(w, Parked(|w.masks|, d, q, local, idle, kicked, pending, runnable, st));
    var s := Parked(|w.masks|, d, q, local, idle, kicked, pending, runnable, st);
    ReachedFormed(w, s);
    ReachStep(w, s, LeaveIdle(c));
    assert Step(w, s, LeaveIdle(c)) == Parked(|w.masks|, d, q, local, idle[c := false], kicked, pending, runnable, st);
  }

  /** The first `k` CPUs as wanted, the rest still idle. */
  function Woken(idle: seq<bool>, k: nat): seq<bool> {
    seq(|idle|, c requires 0 <= c < |idle| => if c < k then idle[c] else true)
  }

  lemma {:induction false} ReachWoken(w: World, d: Dom, idle: seq<bool>, k: nat)
    requires ValidWorld(w) && Possible(w.cfg, d) && k <= |idle| == w.cfg.nrCpus
    ensures ReachParked(w, d, [], Empty(|idle|), Woken(idle, k), Bits(|idle|, false), {}, {})
  {
    if k == 0 {
      ReachStart(w, d);
      assert Woken(idle, 0) == Bits(|idle|, true);
    } else {
      ReachWoken(w, d, idle, k - 1);
      if idle[k - 1] {
        assert Woken(idle, k) == Woken(idle, k - 1);
      } else {
        WakeParked(w, d, [], Empty(|idle|), Woken(idle, k - 1), Bits(|idle|, false), {}, {}, k - 1);
        assert Woken(idle, k) == Woken(idle, k - 1)[k - 1 := false];
      }
    }
  }

  /** Any set of CPUs can be the idle ones of a machine with tasks of domain `d` that do nothing yet. */
  lemma ReachIdle(w: World, d: Dom, idle: seq<bool>)
    requires ValidWorld(w) && Possible(w.cfg, d) && |idle| == w.cfg.nrCpus
    ensures ReachParked(w, d, [], Empty(|idle|), idle, Bits(|idle|, false), {}, {})
  {
    ReachWoken(w, d, idle, |idle|);
    assert Woken(idle, |idle|) == idle;
  }

  /** Task `p` joins the queue and kicks CPU `c`, or nobody if `c` is -1. */
  lemma EnqueueParked(w: World, d: Dom, q: seq<Entry>, local: seq<seq<Entry>>, idle: seq<bool>, kicked: seq<bool>,
                      pending: set<nat>, runnable: set<nat>, p: nat, c: int)
    requires ValidWorld(w) && ReachParked(w, d, q, local, idle, kicked, pending, runnable)
    requires p in pending && p < |w.masks| && |idle| == |kicked| == w.cfg.nrCpus
    requires c == FirstIdle(w, idle, p, d, 0)
    ensures ReachParked(w, d, q + [Entry(p, Slice(w.cfg, d))], local, if c >= 0 then idle[c := false] else idle,
                        if c >= 0 then kicked[c := true] else kicked, pending - {p}, runnable)
  {
    var st :| Reachable(w, Parked(|w.masks|, d, q, local, idle, kicked, pending, runnable, st));
    var s := Parked(|w.masks|, d, q, local, idle, kicked, pending, runnable, st);
    ReachedFormed(w, s);
    ReachStep(w, s, Enqueue(p));
    assert DomOf(s, p) == d;
    var r := EnqueueStep(w, s, p);
    assert r == Parked(|w.masks|, d, q + [Entry(p, Slice(w.cfg, d))], local, if c >= 0 then idle[c := false] else idle,
                       if c >= 0 then kicked[c := true] else kicked, pending - {p}, runnable, r.stats);
  }

  /** A new task, from nowhere to the queue. */
  lemma JoinParked(w: World, d: Dom, q: seq<Entry>, local: seq<seq<Entry>>, idle: seq<bool>, kicked: seq<bool>,
                   runnable: set<nat>, p: nat, c: int)
    requires ValidWorld(w) && ReachParked(w, d, q, local, idle, kicked, {}, runnable)
    requires p < |w.masks| && p !in runnable && |idle| == |kicked| == w.cfg.nrCpus
    requires c == FirstIdle(w, idle, p, d, 0)
    ensures ReachParked(w, d, q + [Entry(p, Slice(w.cfg, d))], local, if c >= 0 then idle[c := false] else idle,
                        if c >= 0 then kicked[c := true] else kicked, {}, runnable + {p})
  {
    ArriveParked(w, d, q, local, idle, kicked, {}, runnable, p);
    EnqueueParked(w, d, q, local, idle, kicked, {} + {p}, runnable + {p}, p, c);
    assert {} + {p} - {p} == {};
  }

  /** CPU `c` of domain `d` takes the head of the queue. */
  lemma TakeParked(w: World, d: Dom, q: seq<Entry>, local: seq<seq<Entry>>, idle: seq<bool>, kicked: seq<bool>,
                   runnable: set<nat>, c: nat)
    requires ValidWorld(w) && ReachParked(w, d, q, local, idle, kicked, {}, runnable)
    requires c < w.cfg.nrCpus == |idle| == |kicked| == |local| && !idle[c] && local[c] == [] && DomOfCpu(w.cfg, c) == d
    requires q != [] && q[0].task < |w.masks| && c in w.masks[q[0].task]
    ensures ReachParked(w, d, q[1..], local[c := [q[0]]], idle, kicked[c := false], {}, runnable)
  {
    var st :| Reachable(w, Parked(|w.masks|, d, q, local, idle, kicked, {}, runnable, st));
    var s := Parked(|w.masks|, d, q, local, idle, kicked, {}, runnable, st);
    ReachedFormed(w, s);
    ReachStep(w, s, Dispatch(c));
    assert Dsq(s, d) == q;
    assert Source(w, s, c) == Some((d, 0));
    FetchedQueues(w, s, c, d, 0);
    var r := Fetched(w, s, c, d, 0);
    assert local[c] + [q[0]] == [q[0]];
    assert r == Parked(|w.masks|, d, q[1..], local[c := [q[0]]], idle, kicked[c := false], {}, runnable, r.stats);
  }

  /** CPU `c` of domain `d` may run nothing that is queued and goes idle. */
  lemma SleepParked(w: World, d: Dom, q: seq<Entry>, local: seq<seq<Entry>>, idle: seq<bool>, kicked: seq<bool>,
                    runnable: set<nat>, c: nat)
    requires ValidWorld(w) && ReachParked(w, d, q, local, idle, kicked, {}, runnable)
    requires c < w.cfg.nrCpus == |idle| == |kicked| == |local| && QueueOk(|w.masks|, q)
    requires !idle[c] && local[c] == [] && DomOfCpu(w.cfg, c) == d
    requires forall i :: 0 <= i < |q| ==> c !in w.masks[q[i].task]
    ensures ReachParked(w, d, q, local, idle[c := true], kicked[c := false], {}, runnable)
  {
    var st :| Reachable(w, Parked(|w.masks|, d, q, local, idle, kicked, {}, runnable, st));
    var s := Parked(|w.masks|, d, q, local, idle, kicked, {}, runnable, st);
    ReachedFormed(w, s);
    ReachStep(w, s, Dispatch(c));
    assert Dsq(s, d) == q && Dsq(s, Other(d)) == [];
    assert Source(w, s, c).None?;
    var r := DispatchStep(w, s, c);
    assert r == Parked(|w.masks|, d, q, local, idle[c := true], kicked[c := false], {}, runnable, r.stats);
  }

  /** A parked state with an idle CPU, a task it may run and no kick is a strand. */
  lemma ParkedStrands(w: World, d: Dom, q: seq<Entry>, local: seq<seq<Entry>>, idle: seq<bool>, kicked: seq<bool>,
                      runnable: set<nat>, c: nat, i: nat)
    requires ValidWorld(w) && ReachParked(w, d, q, local, idle, kicked, {}, runnable)
    requires |idle| == |kicked| == w.cfg.nrCpus && c < w.cfg.nrCpus && idle[c] && QueueOk(|w.masks|, q)
    requires i < |q| && c in w.masks[q[i].task] && forall k :: 0 <= k < |kicked| ==> !kicked[k]
    ensures StrandsAt(w, c, d)
  {
    var st :| Reachable(w, Parked(|w.masks|, d, q, local, idle, kicked, {}, runnable, st));
    var s := Parked(|w.masks|, d, q, local, idle, kicked, {}, runnable, st);
    ReachedFormed(w, s);
    assert Dsq(s, d) == q;
  }

  // ---------------------------------------------------------------- across domains

  /** The kick never looks outside the task's own domain: whenever a task can belong to `d`, it can be
      stranded beside any CPU of the other domain that its mask admits. */
  lemma OtherDomainStrands(w: World, d: Dom, c: nat, p: nat)
    requires ValidWorld(w) && Possible(w.cfg, d) && c < w.cfg.nrCpus && DomOfCpu(w.cfg, c) != d
    requires p < |w.masks| && c in w.masks[p]
    ensures StrandsAt(w, c, d)
  {
    var n := w.cfg.nrCpus;
    var idle := seq(n, k => DomOfCpu(w.cfg, k) != d);
    ReachIdle(w, d, idle);
    forall k | 0 <= k < n ensures !Claimable(w, idle, p, d, k) {
    }
    JoinParked(w, d, [], Empty(n), idle, Bits(n, false), {}, p, -1);
    var q := [] + [Entry(p, Slice(w.cfg, d))];
    ParkedStrands(w, d, q, Empty(n), idle, Bits(n, false), {} + {p}, c, 0);
  }

  /** Some run strands a task. In strict mode that is by design; in non-strict mode it is a lost wakeup,
      for the idle CPU would take the task if it looked. */
  ghost predicate Strands(w: World)
    requires ValidWorld(w)
  {
    exists c, d :: StrandsAt(w, c, d)
  }

  /** Flat mode with every CPU BIG, as `--flat` sets it up. */
  predicate SingleDomain(cfg: Config)
    requires |cfg.cpuDom| == MAX_CPUS
  {
    cfg.mode == Flat && forall c :: 0 <= c < cfg.nrCpus ==> DomOfCpu(cfg, c) == Big
  }

  lemma FlatQueues(w: World, evs: seq<Event>)
    requires ValidRun(w, evs) && w.cfg.mode == Flat
    ensures Reached(w, evs).little == []
  {
    var s := Reached(w, evs);
    FlatIsBig(w, evs);
    RunOrderly(w, evs);
    if s.little != [] {
      NotFiledLittle(w.cfg, s.ctx, s.little);
    }
  }

  lemma NotFiledLittle(cfg: Config, ctx: seq<Option<TaskCtx>>, q: seq<Entry>)
    requires AllBig(ctx) && QueueOk(|ctx|, q) && q != []
    ensures !FiledAs(cfg, ctx, q, Little)
  {
    assert DomIn(ctx, q[0].task) == Big;
  }

  lemma SingleDomainNeverStrands(w: World, evs: seq<Event>, c: nat, d: Dom)
    requires ValidRun(w, evs) && Unrestricted(w) && SingleDomain(w.cfg)
    ensures !Stranded(w, Reached(w, evs), c, d)
  {
    var s := Reached(w, evs);
    NoLostWakeup(w, evs);
    FlatQueues(w, evs);
    if c < w.cfg.nrCpus && s.idle[c] && forall k :: 0 <= k < w.cfg.nrCpus ==> !s.kicked[k] {
      assert KickedIn(w.cfg, s.kicked, Big) == {};
      assert HasIdle(w.cfg, s.idle, Big);
    }
  }

  /** With unrestricted affinity no run ever strands a task exactly when there are no tasks or there is
      one domain only. */
  lemma CrossDomainExactly(w: World)
    requires ValidWorld(w) && Unrestricted(w)
    ensures !Strands(w) <==> |w.masks| == 0 || SingleDomain(w.cfg)
  {
    if |w.masks| > 0 && !SingleDomain(w.cfg) {
      if c :| 0 <= c < w.cfg.nrCpus && DomOfCpu(w.cfg, c) != Big {
        OtherDomainStrands(w, Big, c, 0);
      } else {
        OtherDomainStrands(w, Little, 0, 0);
      }
    } else {
      forall c, d ensures !StrandsAt(w, c, d) {
        OneDomainOrNoTasks(w, c, d);
      }
    }
  }

  lemma OneDomainOrNoTasks(w: World, c: nat, d: Dom)
    requires ValidWorld(w) && Unrestricted(w) && (|w.masks| == 0 || SingleDomain(w.cfg))
    ensures !StrandsAt(w, c, d)
  {
    forall s | Reachable(w, s) && WellFormed(w, s) ensures !Stranded(w, s, c, d) {
      if SingleDomain(w.cfg) {
        var evs :| ValidRun(w, evs) && Reached(w, evs) == s;
        SingleDomainNeverStrands(w, evs, c, d);
      }
    }
  }

  /** The smallest instance: one CPU of each kind, one task that may run on both. */
  lemma CrossDomainWakeupLost() returns (w: World)
    ensures ValidWorld(w) && Unrestricted(w) && !w.cfg.strict && w.cfg.nrCpus == 2
    ensures DomOfCpu(w.cfg, 1) == Little && StrandsAt(w, 1, Big)
  {
    w := TwoCpus();
    TwoCpusFacts();
    OtherDomainStrands(w, Big, 1, 0);
  }

  function TwoCpus(): World {
    Machine(2, 1, false, [{0, 1}])
  }

  lemma TwoCpusFacts()
    ensures var w := TwoCpus();
            ValidWorld(w) && Unrestricted(w) && DomOfCpu(w.cfg, 1) == Little && 1 in w.masks[0]
  {
  }

  // ---------------------------------------------------------------- overlapping masks

  /** Exactly the CPUs of `on` are idle. */
  function OnlyIdle(n: nat, on: set<nat>): seq<bool> {
    seq(n, c => c in on)
  }

  /** Three CPUs of one domain in this order. */
  predicate Triple(w: World, d: Dom, a: nat, b: nat, c: nat)
    requires ValidWorld(w)
  {
    a < b < c < w.cfg.nrCpus && DomOfCpu(w.cfg, a) == DomOfCpu(w.cfg, b) == DomOfCpu(w.cfg, c) == d
  }

  /** The scan for `p` finds CPU `c`, the lowest of the idle ones it may use. */
  lemma Finds(w: World, d: Dom, on: set<nat>, p: nat, c: nat)
    requires ValidWorld(w) && p < |w.masks| && c in on && c < w.cfg.nrCpus && DomOfCpu(w.cfg, c) == d && c in w.masks[p]
    requires forall k :: k in on && k in w.masks[p] ==> k >= c
    ensures FirstIdle(w, OnlyIdle(w.cfg.nrCpus, on), p, d, 0) == c
  {
    assert Claimable(w, OnlyIdle(w.cfg.nrCpus, on), p, d, c);
  }

  lemma FindsNone(w: World, d: Dom, on: set<nat>, p: nat)
    requires ValidWorld(w) && p < |w.masks| && forall k :: k in on ==> k !in w.masks[p]
    ensures FirstIdle(w, OnlyIdle(w.cfg.nrCpus, on), p, d, 0) == -1
  {
  }

  /** The kick for `p` goes to `a`, the one for `q` to `b`; `b` answers first and takes `p`; `a` may not
      run `q` and sleeps; `c`, idle and allowed, is never told. */
  lemma OverlapStrands(w: World, d: Dom, a: nat, b: nat, c: nat, p: nat, q: nat)
    requires ValidWorld(w) && Possible(w.cfg, d) && Triple(w, d, a, b, c)
    requires p < |w.masks| && q < |w.masks|
    requires a in w.masks[p] && b in w.masks[p] && a !in w.masks[q] && b in w.masks[q] && c in w.masks[q]
    ensures StrandsAt(w, c, d)
  {
    var n, e, f := w.cfg.nrCpus, Entry(p, Slice(w.cfg, d)), Entry(q, Slice(w.cfg, d));
    var l, off := Empty(n), Bits(n, false);
    TwoKicked(w, d, a, b, c, p, q);
    var idle := OnlyIdle(n, {c});
    TakeParked(w, d, [e, f], l, idle, off[a := true][b := true], {p, q}, b);
    assert [e, f][1..] == [f];
    assert off[a := true][b := true][b := false] == off[a := true];
    LeftBehind(w, d, a, c, q, l[b := [e]], {p, q});
  }

  /** CPU `a`, kicked, may not run the one queued task and sleeps. */
  lemma LeftBehind(w: World, d: Dom, a: nat, c: nat, q: nat, local: seq<seq<Entry>>, runnable: set<nat>)
    requires ValidWorld(w) && q < |w.masks| && a < c < w.cfg.nrCpus && DomOfCpu(w.cfg, a) == d
    requires a !in w.masks[q] && c in w.masks[q] && |local| == w.cfg.nrCpus && local[a] == []
    requires ReachParked(w, d, [Entry(q, Slice(w.cfg, d))], local, OnlyIdle(w.cfg.nrCpus, {c}),
                         Bits(w.cfg.nrCpus, false)[a := true], {}, runnable)
    ensures StrandsAt(w, c, d)
  {
    var n, f := w.cfg.nrCpus, Entry(q, Slice(w.cfg, d));
    var idle, kicked := OnlyIdle(n, {c}), Bits(n, false)[a := true];
    SleepParked(w, d, [f], local, idle, kicked, runnable, a);
    ParkedStrands(w, d, [f], local, idle[a := true], kicked[a := false], runnable, c, 0);
  }

  lemma TwoKicked(w: World, d: Dom, a: nat, b: nat, c: nat, p: nat, q: nat)
    requires ValidWorld(w) && Possible(w.cfg, d) && Triple(w, d, a, b, c)
    requires p < |w.masks| && q < |w.masks| && p != q && a in w.masks[p] && b in w.masks[q]
    ensures var n := w.cfg.nrCpus;
            ReachParked(w, d, [Entry(p, Slice(w.cfg, d)), Entry(q, Slice(w.cfg, d))], Empty(n), OnlyIdle(n, {c}),
                        Bits(n, false)[a := true][b := true], {}, {p, q})
  {
    var n, e, f := w.cfg.nrCpus, Entry(p, Slice(w.cfg, d)), Entry(q, Slice(w.cfg, d));
    var l, off := Empty(n), Bits(n, false);
    OneKicked(w, d, a, b, c, p);
    Finds(w, d, {b, c}, q, b);
    JoinParked(w, d, [e], l, OnlyIdle(n, {b, c}), off[a := true], {p}, q, b);
    assert OnlyIdle(n, {b, c})[b := false] == OnlyIdle(n, {c});
    assert [e] + [f] == [e, f] && {p} + {q} == {p, q};
  }

  lemma OneKicked(w: World, d: Dom, a: nat, b: nat, c: nat, p: nat)
    requires ValidWorld(w) && Possible(w.cfg, d) && Triple(w, d, a, b, c) && p < |w.masks| && a in w.masks[p]
    ensures var n := w.cfg.nrCpus;
            ReachParked(w, d, [Entry(p, Slice(w.cfg, d))], Empty(n), OnlyIdle(n, {b, c}), Bits(n, false)[a := true],
                        {}, {p})
  {
    var n, e := w.cfg.nrCpus, Entry(p, Slice(w.cfg, d));
    ReachIdle(w, d, OnlyIdle(n, {a, b, c}));
    Finds(w, d, {a, b, c}, p, a);
    JoinParked(w, d, [], Empty(n), OnlyIdle(n, {a, b, c}), Bits(n, false), {}, p, a);
    assert OnlyIdle(n, {a, b, c})[a := false] == OnlyIdle(n, {b, c});
    assert [] + [e] == [e] && {} + {p} == {p};
  }

  /** The same strand although `a` may run `q`: a third task `r`, for which nobody was idle, is ahead of
      `q` when `a` answers. Between these two families and the classes of `NoLostWakeupInClasses` the
      answer depends on how many tasks share a mask; that part stays open. */
  lemma DiversionStrands(w: World, d: Dom, a: nat, b: nat, c: nat, p: nat, q: nat, r: nat)
    requires ValidWorld(w) && Possible(w.cfg, d) && Triple(w, d, a, b, c)
    requires p < |w.masks| && q < |w.masks| && r < |w.masks| && p != q && p != r && q != r
    requires a in w.masks[p] && b in w.masks[p] && b in w.masks[q] && c in w.masks[q]
    requires a in w.masks[r] && b !in w.masks[r] && c !in w.masks[r]
    ensures StrandsAt(w, c, d)
  {
    var n, e, f, g := w.cfg.nrCpus, Entry(p, Slice(w.cfg, d)), Entry(q, Slice(w.cfg, d)), Entry(r, Slice(w.cfg, d));
    var l, off := Empty(n), Bits(n, false);
    OneAndDiverted(w, d, a, b, c, p, q, r);
    TakeParked(w, d, [e, g, f], l, OnlyIdle(n, {c}), off[a := true][b := true], {p, r, q}, b);
    assert [e, g, f][1..] == [g, f];
    assert off[a := true][b := true][b := false] == off[a := true];
    Diverted(w, d, a, c, q, r, l[b := [e]], {p, r, q});
  }

  /** CPU `a`, kicked, takes the task ahead of `q`. */
  lemma Diverted(w: World, d: Dom, a: nat, c: nat, q: nat, r: nat, local: seq<seq<Entry>>, runnable: set<nat>)
    requires ValidWorld(w) && q < |w.masks| && r < |w.masks| && a < c < w.cfg.nrCpus && DomOfCpu(w.cfg, a) == d
    requires a in w.masks[r] && c in w.masks[q] && |local| == w.cfg.nrCpus && local[a] == []
    requires ReachParked(w, d, [Entry(r, Slice(w.cfg, d)), Entry(q, Slice(w.cfg, d))], local,
                         OnlyIdle(w.cfg.nrCpus, {c}), Bits(w.cfg.nrCpus, false)[a := true], {}, runnable)
    ensures StrandsAt(w, c, d)
  {
    var n, f, g := w.cfg.nrCpus, Entry(q, Slice(w.cfg, d)), Entry(r, Slice(w.cfg, d));
    var idle, kicked := OnlyIdle(n, {c}), Bits(n, false)[a := true];
    TakeParked(w, d, [g, f], local, idle, kicked, runnable, a);
    assert [g, f][1..] == [f];
    ParkedStrands(w, d, [f], local[a := [g]], idle, kicked[a := false], runnable, c, 0);
  }

  lemma OneAndDiverted(w: World, d: Dom, a: nat, b: nat, c: nat, p: nat, q: nat, r: nat)
    requires ValidWorld(w) && Possible(w.cfg, d) && Triple(w, d, a, b, c)
    requires p < |w.masks| && q < |w.masks| && r < |w.masks| && p != q && p != r && q != r
    requires a in w.masks[p] && b in w.masks[q] && b !in w.masks[r] && c !in w.masks[r]
    ensures var n := w.cfg.nrCpus;
            var sl := Slice(w.cfg, d);
            ReachParked(w, d, [Entry(p, sl), Entry(r, sl), Entry(q, sl)], Empty(n), OnlyIdle(n, {c}),
                        Bits(n, false)[a := true][b := true], {}, {p, r, q})
  {
    var n, e, f, g := w.cfg.nrCpus, Entry(p, Slice(w.cfg, d)), Entry(q, Slice(w.cfg, d)), Entry(r, Slice(w.cfg, d));
    var l, off := Empty(n), Bits(n, false);
    OneKicked(w, d, a, b, c, p);
    FindsNone(w, d, {b, c}, r);
    JoinParked(w, d, [e], l, OnlyIdle(n, {b, c}), off[a := true], {p}, r, -1);
    assert [e] + [g] == [e, g] && {p} + {r} == {p, r};
    Finds(w, d, {b, c}, q, b);
    JoinParked(w, d, [e, g], l, OnlyIdle(n, {b, c}), off[a := true], {p, r}, q, b);
    assert OnlyIdle(n, {b, c})[b := false] == OnlyIdle(n, {c});
    assert [e, g] + [f] == [e, g, f] && {p, r} + {q} == {p, r, q};
  }

  /** The smallest instance: three BIG CPUs, the tasks share the middle one. */
  lemma RestrictedAffinityLosesWakeup() returns (w: World)
    ensures ValidWorld(w) && (forall c :: DomOfCpu(w.cfg, c) == Big) && w.masks == [{0, 1}, {1, 2}]
    ensures StrandsAt(w, 2, Big)
  {
    w := ThreeCpus();
    ThreeCpusFacts();
    OverlapStrands(w, Big, 0, 1, 2, 0, 1);
  }

  function ThreeCpus(): World {
    Machine(3, MAX_CPUS, false, [{0, 1}, {1, 2}])
  }

  lemma ThreeCpusFacts()
    ensures ValidWorld(ThreeCpus()) && forall c :: DomOfCpu(ThreeCpus().cfg, c) == Big
  {
  }

  // ---------------------------------------------------------------- sleeping without a look

  /** A call, or CPU `c` going idle right after its last task went back through `enqueue`, which is what
      SCX_OPS_ENQ_LAST lets the kernel do: the dispatch before that found nothing to replace the task. */
  datatype Move = Call(ev: Event) | Lapse(c: nat)

  ghost predicate LapseEnabled(ms: seq<Move>, s: State, c: nat, p: nat) {
    && |ms| >= 3 && c < |s.idle| == |s.curr| == |s.local| && !s.idle[c] && s.curr[c].None? && s.local[c] == []
    && ms[|ms| - 3] == Call(Dispatch(c)) && ms[|ms| - 1] == Call(Enqueue(p))
    && (exists now :: ms[|ms| - 2] == Call(Stopping(c, true, now)))
  }

  /** The state after the moves, `None` if the kernel would not have made them. */
  ghost function AfterMoves(w: World, ms: seq<Move>): (r: Option<State>)
    requires ValidWorld(w)
    ensures r.Some? ==> WellFormed(w, r.value)
  {
    if ms == [] then Some(Initial(w))
    else
      var before, m := ms[..|ms| - 1], ms[|ms| - 1];
      var r := AfterMoves(w, before);
      if r.None? then None
      else
        match m
        case Call(ev) => if Enabled(w, r.value, ev) then Some(Step(w, r.value, ev)) else None
        case Lapse(c) =>
          if exists p :: LapseEnabled(before, r.value, c, p) then Some(r.value.(idle := r.value.idle[c := true]))
          else None
  }

  function Calls(evs: seq<Event>): (ms: seq<Move>)
    ensures |ms| == |evs| && forall i :: 0 <= i < |ms| ==> ms[i] == Call(evs[i])
  {
    seq(|evs|, i requires 0 <= i < |evs| => Call(evs[i]))
  }

  /** Without lapses the moves are the histories of `SchedModel`. */
  lemma {:induction false} CallsOnly(w: World, evs: seq<Event>)
    requires ValidWorld(w)
    ensures AfterMoves(w, Calls(evs)) == After(w, evs)
  {
    if evs != [] {
      CallsOnly(w, evs[..|evs| - 1]);
      assert Calls(evs)[..|evs| - 1] == Calls(evs[..|evs| - 1]);
    }
  }

  lemma OneMoreCall(w: World, ms: seq<Move>, s: State, ev: Event)
    requires ValidWorld(w) && WellFormed(w, s) && AfterMoves(w, ms) == Some(s) && Enabled(w, s, ev)
    ensures AfterMoves(w, ms + [Call(ev)]) == Some(Step(w, s, ev))
  {
    assert (ms + [Call(ev)])[..|ms + [Call(ev)]| - 1] == ms;
  }

  /** Task `p` runs on `c` and nothing else is going on: nobody is idle, kicked or queued. */
  ghost predicate Alone(w: World, s: State, c: nat, p: nat, d: Dom) {
    && WellFormed(w, s) && c < w.cfg.nrCpus && p < |w.masks| && DomOf(s, p) == d
    && s.big == [] && s.little == [] && s.local[c] == [] && s.curr[c] == Some(p)
    && (s.ctx[p].Some? ==> s.ctx[p].value.startedAt == 0)
    && forall k :: 0 <= k < w.cfg.nrCpus ==> !s.idle[k] && !s.kicked[k]
  }

  lemma ReachAlone(w: World, c: nat, p: nat, d: Dom) returns (s: State)
    requires ValidWorld(w) && Possible(w.cfg, d) && c < w.cfg.nrCpus && DomOfCpu(w.cfg, c) == d
    requires p < |w.masks| && c in w.masks[p]
    ensures Reachable(w, s) && Alone(w, s, c, p, d)
  {
    var n, e := w.cfg.nrCpus, Entry(p, Slice(w.cfg, d));
    var off := Bits(n, false);
    ReachIdle(w, d, off);
    forall k | 0 <= k < n ensures !Claimable(w, off, p, d, k) {
    }
    JoinParked(w, d, [], Empty(n), off, off, {}, p, -1);
    TakeParked(w, d, [] + [e], Empty(n), off, off, {} + {p}, c);
    assert ([] + [e])[1..] == [] && ([] + [e])[0] == e && off[c := false] == off;
    var l := Empty(n)[c := [e]];
    var st :| Reachable(w, Parked(|w.masks|, d, [], l, off, off, {}, {} + {p}, st));
    var s0 := Parked(|w.masks|, d, [], l, off, off, {}, {} + {p}, st);
    ReachedFormed(w, s0);
    ReachStep(w, s0, Running(c, 0));
    s := Step(w, s0, Running(c, 0));
    assert s.local[c] == [];
    assert DomIn(s.ctx, p) == DomIn(s0.ctx, p);
  }

  /** A dispatch beside a running task finds nothing and changes nothing. */
  lemma FindsNothing(w: World, s: State, c: nat, p: nat, d: Dom)
    requires ValidWorld(w) && Alone(w, s, c, p, d)
    ensures Enabled(w, s, Dispatch(c)) && Step(w, s, Dispatch(c)) == s
  {
    assert Source(w, s, c).None?;
    assert s.kicked[c := false] == s.kicked;
  }

  lemma StopsAlone(w: World, s: State, c: nat, p: nat, d: Dom)
    requires ValidWorld(w) && Alone(w, s, c, p, d)
    ensures Enabled(w, s, Stopping(c, true, 0))
    ensures Step(w, s, Stopping(c, true, 0)) == s.(curr := s.curr[c := None], pending := s.pending + {p})
  {
    assert s.ctx[p].Some? ==> s.ctx[p := s.ctx[p]] == s.ctx;
  }

  /** The re-queued task kicks nobody, because nobody is idle. */
  lemma Requeued(w: World, s: State, c: nat, p: nat, d: Dom, s': State)
    requires ValidWorld(w) && Alone(w, s, c, p, d)
    requires s' == s.(curr := s.curr[c := None], pending := s.pending + {p}) && WellFormed(w, s')
    ensures Enabled(w, s', Enqueue(p))
    ensures var r := Step(w, s', Enqueue(p));
            && !r.idle[c] && r.curr[c].None? && r.local[c] == [] && Dsq(r, d) == [Entry(p, Slice(w.cfg, d))]
            && forall k :: 0 <= k < w.cfg.nrCpus ==> !r.kicked[k]
  {
    EnqueueQueues(w, s', p);
    assert FirstIdle(w, s'.idle, p, d, 0) == -1;
    assert [] + [Entry(p, Slice(w.cfg, d))] == [Entry(p, Slice(w.cfg, d))];
  }

  lemma LapseStep(w: World, ms: seq<Move>, s: State, c: nat, p: nat)
    requires ValidWorld(w) && AfterMoves(w, ms) == Some(s) && LapseEnabled(ms, s, c, p)
    ensures AfterMoves(w, ms + [Lapse(c)]) == Some(s.(idle := s.idle[c := true]))
  {
    assert (ms + [Lapse(c)])[..|ms + [Lapse(c)]| - 1] == ms;
  }

  lemma ThreeCalls(w: World, evs: seq<Event>, c: nat, p: nat, d: Dom) returns (ms: seq<Move>)
    requires ValidRun(w, evs) && Alone(w, Reached(w, evs), c, p, d)
    ensures AfterMoves(w, ms).Some?
    ensures var r := AfterMoves(w, ms).value;
            && LapseEnabled(ms, r, c, p) && Dsq(r, d) == [Entry(p, Slice(w.cfg, d))]
            && forall k :: 0 <= k < w.cfg.nrCpus ==> !r.kicked[k]
  {
    var s := Reached(w, evs);
    FindsNothing(w, s, c, p, d);
    StopsAlone(w, s, c, p, d);
    var s' := Step(w, s, Stopping(c, true, 0));
    Requeued(w, s, c, p, d, s');
    CallsOnly(w, evs);
    var m0 := Calls(evs);
    var m1 := m0 + [Call(Dispatch(c))];
    var m2 := m1 + [Call(Stopping(c, true, 0))];
    OneMoreCall(w, m0, s, Dispatch(c));
    OneMoreCall(w, m1, s, Stopping(c, true, 0));
    OneMoreCall(w, m2, s', Enqueue(p));
    ms := m2 + [Call(Enqueue(p))];
    assert ms[|ms| - 3] == Call(Dispatch(c)) && ms[|ms| - 2] == Call(Stopping(c, true, 0));
  }

  /** If the kernel ever makes such a move, the task is lost: on every machine, for every CPU of a domain
      that the task can have and that its mask admits, a run ends with that CPU asleep beside the task it
      has just put back. The kick of `bls_enqueue` could not see the CPU, which was not idle yet. */
  lemma SleepingWithoutDispatchLosesWakeup(w: World, c: nat, p: nat, d: Dom) returns (ms: seq<Move>)
    requires ValidWorld(w) && Possible(w.cfg, d) && c < w.cfg.nrCpus && DomOfCpu(w.cfg, c) == d
    requires p < |w.masks| && c in w.masks[p]
    ensures AfterMoves(w, ms).Some? && Stranded(w, AfterMoves(w, ms).value, c, d)
  {
    var s := ReachAlone(w, c, p, d);
    var evs :| ValidRun(w, evs) && Reached(w, evs) == s;
    var calls := ThreeCalls(w, evs, c, p, d);
    var r := AfterMoves(w, calls).value;
    LapseStep(w, calls, r, c, p);
    ms := calls + [Lapse(c)];
    assert Dsq(r.(idle := r.idle[c := true]), d)[0].task == p;
  }

  /** These moves end with a task stranded beside an idle CPU of its own domain. */
  ghost predicate StrandsAtHome(w: World, ms: seq<Move>, c: nat)
    requires ValidWorld(w)
  {
    c < w.cfg.nrCpus && AfterMoves(w, ms).Some? && Stranded(w, AfterMoves(w, ms).value, c, DomOfCpu(w.cfg, c))
  }

  /** Task `p` can belong to the domain of CPU `c` and may run there. */
  ghost predicate AtHome(w: World, p: nat, c: nat)
    requires ValidWorld(w)
  {
    p < |w.masks| && c < w.cfg.nrCpus && c in w.masks[p] && Possible(w.cfg, DomOfCpu(w.cfg, c))
  }

  lemma {:induction false} FlatMoves(w: World, ms: seq<Move>)
    requires ValidWorld(w) && w.cfg.mode == Flat && AfterMoves(w, ms).Some?
    ensures AllBig(AfterMoves(w, ms).value.ctx) && AfterMoves(w, ms).value.little == []
  {
    if ms != [] {
      var before, m := ms[..|ms| - 1], ms[|ms| - 1];
      FlatMoves(w, before);
      if m.Call? {
        FlatStepIsBig(w, AfterMoves(w, before).value, m.ev);
        FlatStepFilesBig(w, AfterMoves(w, before).value, m.ev);
      }
    }
  }

  lemma FlatStepFilesBig(w: World, s: State, ev: Event)
    requires ValidWorld(w) && WellFormed(w, s) && Enabled(w, s, ev) && AllBig(s.ctx) && s.little == []
    ensures Step(w, s, ev).little == []
  {
    if ev.Enqueue? {
      assert DomIn(s.ctx, ev.p) == Big;
      EnqueueQueues(w, s, ev.p);
    } else if ev.Dispatch? {
      if Source(w, s, ev.c).Some? {
        FetchedQueues(w, s, ev.c, Source(w, s, ev.c).value.0, Source(w, s, ev.c).value.1);
      } else {
        MissedQueues(w, s, ev.c);
      }
    } else {
      QuietServes(w, s, ev);
    }
  }

  lemma StrandedIsAtHome(w: World, ms: seq<Move>, c: nat) returns (p: nat)
    requires ValidWorld(w) && StrandsAtHome(w, ms, c)
    ensures AtHome(w, p, c)
  {
    var q := Dsq(AfterMoves(w, ms).value, DomOfCpu(w.cfg, c));
    var i :| 0 <= i < |q| && c in w.masks[q[i].task];
    p := q[i].task;
    if w.cfg.mode == Flat {
      FlatMoves(w, ms);
    }
  }

  /** With such moves some run strands a task in its own domain exactly when some task can belong to the
      domain of a CPU on which it may run. */
  lemma LapseStrandsExactly(w: World)
    requires ValidWorld(w)
    ensures (exists ms, c: nat :: StrandsAtHome(w, ms, c)) <==> exists p: nat, c: nat :: AtHome(w, p, c)
  {
    if p: nat, c: nat :| AtHome(w, p, c) {
      var ms := SleepingWithoutDispatchLosesWakeup(w, c, p, DomOfCpu(w.cfg, c));
      assert StrandsAtHome(w, ms, c);
    }
    if ms, c: nat :| StrandsAtHome(w, ms, c) {
      var p := StrandedIsAtHome(w, ms, c);
    }
  }
}
