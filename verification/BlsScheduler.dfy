/**
 The callbacks of src/bls.bpf.c as they are written: methods that update the task storage, the
 queues, the idle bits and the counter array in place. Each is proved to do exactly what the
 corresponding state function of `SchedModel` says, so every theorem about runs is about them.
 */
module BlsScheduler {
  import opened Wrappers
  import opened Domains
  import opened CommRules
  import opened SchedModel

  const STAT_ENQ := 0
  const STAT_DIRECT := 1
  const STAT_DSQ_BIG := 2
  const STAT_DSQ_LITTLE := 3
  const STAT_LOCAL_HIT := 4
  const STAT_STEAL := 5
  const STAT_NO_IDLE_IN_DOM := 6
  const STAT_RECLASSIFY := 7
  const STAT_RUN_BIG_MS := 8
  const STAT_RUN_LITTLE_MS := 9
  const STAT_TASKS_BIG := 10
  const STAT_TASKS_LITTLE := 11
  const NR_STATS := 12

  function StatsOf(a: seq<nat>): Stats
    requires |a| == NR_STATS
  {
    Stats(a[0], a[1], a[2], a[3], a[4], a[5], a[6], a[7], a[8], a[9], a[10], a[11])
  }

  /** Moving a task does not look at the counters. */
  lemma MoveKeepsStats(w: World, s: State, d: Dom, i: nat, c: nat, st: Stats)
    requires WellFormed(w, s) && c < w.cfg.nrCpus && i < |Dsq(s, d)|
    ensures MoveToLocal(w, s.(stats := st), d, i, c) == MoveToLocal(w, s, d, i, c).(stats := st)
  {
  }

  lemma SourceIgnoresKicks(w: World, s: State, kicked: seq<bool>, c: nat)
    requires ValidWorld(w) && WellFormed(w, s) && |kicked| == w.cfg.nrCpus && c < w.cfg.nrCpus
    ensures Source(w, s.(kicked := kicked), c) == Source(w, s, c)
  {
  }

  class Scheduler {
    const w: World
    var ctx: seq<Option<TaskCtx>>
    var big: seq<Entry>
    var little: seq<Entry>
    var local: seq<seq<Entry>>
    var curr: seq<Option<nat>>
    var idle: array<bool>
    var kicked: seq<bool>
    var pending: set<nat>
    var runnable: set<nat>
    var stats: array<nat>

    ghost predicate Valid()
      reads this, idle, stats
    {
      && ValidWorld(w)
      && idle.Length == w.cfg.nrCpus && stats.Length == NR_STATS
      && WellFormed(w, State(ctx, big, little, local, curr, idle[..], kicked, pending, runnable, StatsOf(stats[..])))
    }

    ghost function View(): State
      requires Valid()
      reads this, idle, stats
    {
      State(ctx, big, little, local, curr, idle[..], kicked, pending, runnable, StatsOf(stats[..]))
    }

    /** Attach to a machine on which nothing runs yet. */
    constructor (w: World)
      requires ValidWorld(w)
      ensures Valid() && this.w == w && View() == Initial(w)
      ensures fresh(idle) && fresh(stats)
    {
      this.w := w;
      var n := w.cfg.nrCpus;
      ctx := seq(|w.masks|, _ => None);
      big, little, local, curr := [], [], seq(n, _ => []), seq(n, _ => None);
      idle := new bool[n](_ => true);
      kicked := seq(n, _ => false);
      pending, runnable := {}, {};
      stats := new nat[NR_STATS](_ => 0);
      new;
      assert idle[..] == seq(n, _ => true);
      assert StatsOf(stats[..]) == Stats(0, 0, 0, 0, 0, 0, 0, 0, 0, 0, 0, 0);
    }

    method StatAdd(idx: nat, delta: nat)
      requires idx < stats.Length
      modifies stats
      ensures stats[..] == old(stats[..])[idx := old(stats[idx]) + delta]
    {
      stats[idx] := stats[idx] + delta;
    }

    /** The atomic kfunc: false for a CPU the machine does not have. */
    method TestAndClearIdle(cpu: int) returns (was: bool)
      modifies idle
      ensures was <==> 0 <= cpu < idle.Length && old(idle[cpu])
      ensures idle[..] == if was then old(idle[..])[cpu := false] else old(idle[..])
    {
      if 0 <= cpu < idle.Length && idle[cpu] {
        idle[cpu] := false;
        return true;
      }
      return false;
    }

    /** The scan shared by `pick_idle_in_dom` and `kick_idle_in_dom`: claim the lowest idle CPU of `dom`
        in the task's mask. */
    method ClaimIdle(p: nat, dom: Dom) returns (cpu: int)
      requires Valid() && p < |w.masks|
      modifies idle
      ensures cpu == FirstIdle(w, old(idle[..]), p, dom, 0)
      ensures idle[..] == if cpu >= 0 then old(idle[..])[cpu := false] else old(idle[..])
    {
      var i := 0;
      while i < w.cfg.nrCpus
        invariant 0 <= i <= w.cfg.nrCpus && idle[..] == old(idle[..])
        invariant FirstIdle(w, old(idle[..]), p, dom, 0) == FirstIdle(w, old(idle[..]), p, dom, i)
      {
        if DomOfCpu(w.cfg, i) == dom && i in w.masks[p] {
          var claimed := TestAndClearIdle(i);
          if claimed {
            return i;
          }
        }
        i := i + 1;
      }
      return -1;
    }

    method PickIdleInDom(p: nat, dom: Dom, prev: int) returns (cpu: int)
      requires Valid() && p < |w.masks|
      modifies idle
      ensures cpu == PickIdle(w, old(idle[..]), p, dom, prev)
      ensures idle[..] == if cpu >= 0 then old(idle[..])[cpu := false] else old(idle[..])
    {
      if 0 <= prev < MAX_CPUS && DomOfCpu(w.cfg, prev) == dom {
        var claimed := TestAndClearIdle(prev);
        if claimed {
          return prev;
        }
      }
      cpu := ClaimIdle(p, dom);
    }

    method KickIdleInDom(p: nat, dom: Dom)
      requires Valid() && p < |w.masks|
      modifies idle, `kicked
      ensures Valid() && View() == Kick(w, old(View()), p, dom)
    {
      var cpu := ClaimIdle(p, dom);
      if cpu >= 0 {
        kicked := kicked[cpu := true];
      }
    }

    /** `scx_bpf_dsq_insert(SCX_DSQ_LOCAL)` from `select_cpu`, on a CPU already claimed: the kernel queues
        the task on the CPU that the callback returns. */
    method InsertLocal(p: nat, slice: nat, cpu: nat)
      requires Valid() && p < |w.masks| && cpu < w.cfg.nrCpus && !idle[cpu]
      modifies `local, `runnable, stats
      ensures Valid() && View() == PlaceOn(old(View()), cpu, Entry(p, slice))
    {
      local := local[cpu := local[cpu] + [Entry(p, slice)]];
      runnable := runnable + {p};
      StatAdd(STAT_DIRECT, 1);
      assert idle[..] == idle[..][cpu := false];
    }

    /** The non-strict escape valve of `bls_select_cpu`: spill to the other domain or let the task wait. */
    method SpillOrWait(p: nat, dom: Dom, prev: int) returns (cpu: int)
      requires Valid() && p < |w.masks|
      modifies this, idle, stats
      ensures idle == old(idle) && stats == old(stats) && Valid()
      ensures var s := old(View());
              var c := if w.cfg.strict then -1 else PickIdle(w, s.idle, p, Other(dom), -1);
              if c >= 0 then
                var s1 := PlaceOn(s, c, Entry(p, Slice(w.cfg, dom)));
                cpu == c && View() == s1.(stats := s1.stats.(steal := s1.stats.steal + 1))
              else cpu == prev && View() == s.(pending := s.pending + {p}, runnable := s.runnable + {p})
    {
      if !w.cfg.strict {
        cpu := PickIdleInDom(p, Other(dom), -1);
        if cpu >= 0 {
          InsertLocal(p, Slice(w.cfg, dom), cpu);
          StatAdd(STAT_STEAL, 1);
          assert old(idle[..])[cpu := false][cpu := false] == old(idle[..])[cpu := false];
          return;
        }
      }
      pending, runnable := pending + {p}, runnable + {p};
      cpu := prev;
    }

    method SelectCpu(p: nat, prev: int) returns (cpu: int)
      requires Valid() && p < |w.masks|
      modifies this, idle, stats
      ensures idle == old(idle) && stats == old(stats)
      ensures Valid() && (View(), cpu) == SelectStep(w, old(View()), p, prev)
    {
      var dom := if ctx[p].Some? then ctx[p].value.domain else Big;
      cpu := PickIdleInDom(p, dom, prev);
      if cpu >= 0 {
        InsertLocal(p, Slice(w.cfg, dom), cpu);
        assert old(idle[..])[cpu := false][cpu := false] == old(idle[..])[cpu := false];
      } else {
        StatAdd(STAT_NO_IDLE_IN_DOM, 1);
        cpu := SpillOrWait(p, dom, prev);
      }
    }

    /** `scx_bpf_dsq_insert` on a shared queue; the task no longer waits for `enqueue`. */
    method DsqInsert(p: nat, dom: Dom, slice: nat)
      requires Valid() && p < |w.masks|
      modifies `big, `little, `pending
      ensures Valid()
      ensures var s := old(View());
              View() == WithDsq(s, dom, Dsq(s, dom) + [Entry(p, slice)]).(pending := s.pending - {p})
    {
      if dom == Little {
        little := little + [Entry(p, slice)];
      } else {
        big := big + [Entry(p, slice)];
      }
      pending := pending - {p};
    }

    method EnqueueTask(p: nat)
      requires Valid() && p < |w.masks|
      modifies this, idle, stats
      ensures idle == old(idle) && stats == old(stats)
      ensures Valid() && View() == EnqueueStep(w, old(View()), p)
    {
      var dom := if ctx[p].Some? then ctx[p].value.domain else Big;
      StatAdd(STAT_ENQ, 1);
      StatAdd(if dom == Little then STAT_DSQ_LITTLE else STAT_DSQ_BIG, 1);
      DsqInsert(p, dom, Slice(w.cfg, dom));
      assert View() == Queued(w, old(View()), p);
      KickIdleInDom(p, dom);
    }

    /** The kernel's scan of a shared queue for a task that may run on CPU `c`. */
    method FindAllowed(q: seq<Entry>, c: nat) returns (i: int)
      requires QueueOk(|w.masks|, q)
      ensures i == FirstAllowed(w, q, c, 0)
    {
      i := 0;
      while i < |q|
        invariant 0 <= i <= |q|
        invariant FirstAllowed(w, q, c, 0) == FirstAllowed(w, q, c, i)
      {
        if c in w.masks[q[i].task] {
          return i;
        }
        i := i + 1;
      }
      return -1;
    }

    /** `scx_bpf_dsq_move_to_local`: the first queued task allowed on this CPU. */
    method DsqMoveToLocal(dom: Dom, c: nat) returns (moved: bool)
      requires Valid() && c < w.cfg.nrCpus
      modifies `big, `little, `local
      ensures Valid()
      ensures var i := FirstAllowed(w, Dsq(old(View()), dom), c, 0);
              moved == (i >= 0) && View() == if i >= 0 then MoveToLocal(w, old(View()), dom, i, c) else old(View())
    {
      var q := if dom == Little then little else big;
      var i := FindAllowed(q, c);
      moved := i >= 0;
      if moved {
        var rest := q[..i] + q[i + 1..];
        if dom == Little {
          little := rest;
        } else {
          big := rest;
        }
        local := local[c := local[c] + [q[i]]];
      }
    }

    /** One attempt of `bls_dispatch`: move a task from queue `dom` and count it as a hit or a steal. */
    method Consume(dom: Dom, c: nat) returns (moved: bool)
      requires Valid() && c < w.cfg.nrCpus
      modifies this, stats
      ensures idle == old(idle) && stats == old(stats) && idle[..] == old(idle[..])
      ensures Valid()
      ensures var s := old(View());
              var i := FirstAllowed(w, Dsq(s, dom), c, 0);
              var st := if dom == DomOfCpu(w.cfg, c) then s.stats.(localHit := s.stats.localHit + 1)
                        else s.stats.(steal := s.stats.steal + 1);
              moved == (i >= 0) && View() == if i >= 0 then MoveToLocal(w, s.(stats := st), dom, i, c) else s
    {
      ghost var s := View();
      moved := DsqMoveToLocal(dom, c);
      if moved {
        StatAdd(if dom == DomOfCpu(w.cfg, c) then STAT_LOCAL_HIT else STAT_STEAL, 1);
        MoveKeepsStats(w, s, dom, FirstAllowed(w, Dsq(s, dom), c, 0), c, StatsOf(stats[..]));
      }
    }

    /** The two attempts of `bls_dispatch`. */
    method Fetch(c: nat) returns (moved: bool)
      requires Valid() && c < w.cfg.nrCpus
      modifies this, stats
      ensures idle == old(idle) && stats == old(stats) && idle[..] == old(idle[..])
      ensures Valid()
      ensures var s := old(View());
              moved == Source(w, s, c).Some?
              && (!moved ==> View() == s)
              && (moved ==>
                    var (d, i) := Source(w, s, c).value;
                    var st := if d == DomOfCpu(w.cfg, c) then s.stats.(localHit := s.stats.localHit + 1)
                              else s.stats.(steal := s.stats.steal + 1);
                    View() == MoveToLocal(w, s.(stats := st), d, i, c))
    {
      var dom := DomOfCpu(w.cfg, c);
      moved := Consume(dom, c);
      if !moved && !w.cfg.strict {
        moved := Consume(Other(dom), c);
      }
    }

    method Dispatch(c: nat)
      requires Valid() && c < w.cfg.nrCpus
      modifies this, idle, stats
      ensures idle == old(idle) && stats == old(stats)
      ensures Valid() && View() == DispatchStep(w, old(View()), c)
    {
      ghost var s := View();
      kicked := kicked[c := false];
      assert View() == s.(kicked := s.kicked[c := false]);
      SourceIgnoresKicks(w, s, s.kicked[c := false], c);
      var moved := Fetch(c);
      // the kernel's half: nothing was found and nothing runs here
      if !moved && curr[c].None? {
        idle[c] := true;
        assert idle[..] == s.idle[c := true];
      }
    }

    method RunningOn(c: nat, now: nat)
      requires Valid() && c < w.cfg.nrCpus && local[c] != []
      modifies this
      ensures idle == old(idle) && stats == old(stats)
      ensures Valid() && View() == RunningStep(old(View()), c, now)
    {
      assert WellFormed(w, View());
      var p := local[c][0].task;
      local, curr := local[c := local[c][1..]], curr[c := Some(p)];
      if ctx[p].Some? {
        ctx := ctx[p := Some(ctx[p].value.(startedAt := now))];
      }
    }

    method StoppingOn(c: nat, again: bool, now: nat)
      requires Valid() && c < w.cfg.nrCpus && curr[c].Some?
      modifies this, stats
      ensures idle == old(idle) && stats == old(stats)
      ensures Valid() && View() == StoppingStep(w, old(View()), c, again, now)
    {
      assert WellFormed(w, View());
      var p := curr[c].value;
      if ctx[p].Some? && ctx[p].value.startedAt != 0 {
        AccountSlice(c, p, now);
      }
      // the kernel's half: the task leaves the CPU
      curr := curr[c := None];
      if again {
        pending := pending + {p};
      } else {
        runnable := runnable - {p};
      }
    }

    /** The body of `bls_stopping` for a task whose slice is being timed. */
    method AccountSlice(c: nat, p: nat, now: nat)
      requires Valid() && c < w.cfg.nrCpus && p < |ctx| && ctx[p].Some? && ctx[p].value.startedAt != 0
      modifies `ctx, stats
      ensures ctx == old(ctx)[p := Some(StopCtx(w.cfg, old(ctx)[p].value, DomOfCpu(w.cfg, c), now))]
      ensures stats.Length == NR_STATS
      ensures StatsOf(stats[..])
              == StopStats(StatsOf(old(stats[..])), old(ctx)[p].value, ctx[p].value, DomOfCpu(w.cfg, c), now)
    {
      var tc := ctx[p].value;
      var delta := Delta(now, tc.startedAt);
      tc := tc.(startedAt := 0);
      if DomOfCpu(w.cfg, c) == Little {
        tc := tc.(ranLittle := (tc.ranLittle + delta) % TWO64);
        StatAdd(STAT_RUN_LITTLE_MS, delta / NSEC_PER_MSEC);
      } else {
        tc := tc.(ranBig := (tc.ranBig + delta) % TWO64);
        StatAdd(STAT_RUN_BIG_MS, delta / NSEC_PER_MSEC);
      }
      tc := tc.(ewma := Ewma(tc.ewma, delta));
      if !tc.pinned && Adapts(w.cfg.mode) {
        if tc.domain == Little && tc.ewma > w.cfg.threshNs {
          tc := tc.(domain := Big);
          StatAdd(STAT_RECLASSIFY, 1);
        } else if tc.domain == Big && tc.ewma < w.cfg.threshNs / 2 {
          tc := tc.(domain := Little);
          StatAdd(STAT_RECLASSIFY, 1);
        }
      }
      ctx := ctx[p := Some(tc)];
    }

    /** `ok` is whether the storage could be created; -ENOMEM otherwise. */
    method InitTask(p: nat, comm: Option<CommBuf>, ok: bool) returns (enomem: bool)
      requires Valid() && p < |w.masks|
      modifies this, stats
      ensures idle == old(idle) && stats == old(stats)
      ensures enomem == !ok
      ensures Valid() && View() == InitTaskStep(w, old(View()), p, comm, ok)
    {
      if !ok {
        return true;
      }
      var tc := if ctx[p].Some? then ctx[p].value else TaskCtx(0, 0, 0, 0, Big, false);
      var dom, pinned := InitialDomainOf(comm);
      ctx := ctx[p := Some(tc.(domain := dom, pinned := pinned, ewma := 0, startedAt := 0))];
      StatAdd(if dom == Little then STAT_TASKS_LITTLE else STAT_TASKS_BIG, 1);
      return false;
    }

    method InitialDomainOf(comm: Option<CommBuf>) returns (dom: Dom, pinned: bool)
      requires ValidTable(w.cfg.rules)
      ensures (dom, pinned) == InitialDomain(w.cfg, comm)
    {
      var byComm: Option<Dom> := None;
      match w.cfg.mode
      case Flat => return Big, false;
      case Comm =>
        if comm.Some? {
          byComm := ClassifyByComm(w.cfg.rules, comm.value);
        }
        return if byComm.Some? then byComm.value else Little, byComm.Some?;
      case Hybrid =>
        if comm.Some? {
          byComm := ClassifyByComm(w.cfg.rules, comm.value);
        }
        if byComm.Some? {
          return byComm.value, true;
        }
        return Little, false;
      case Adaptive => return Little, false;
    }
  }
}
