/**
 Where a wakeup, an enqueue and a dispatch put a task, said with idle bits, masks and domains alone: the
 idle previous CPU, else the lowest allowed idle CPU of the task's own domain, else, unless the
 partition is strict, the lowest one of the other domain, else the task waits.
 */
module SchedPlacement {
  import opened Wrappers
  import opened Domains
  import opened SchedModel
  import opened SchedConservation
  import opened SchedPartition

  /** The idle CPUs of domain `d` on which task `p` may run. */
  ghost function FreeCpus(w: World, idle: seq<bool>, p: nat, d: Dom): set<nat>
    requires |w.cfg.cpuDom| == MAX_CPUS && |idle| == w.cfg.nrCpus && p < |w.masks|
  {
    set c: nat | c < w.cfg.nrCpus && idle[c] && c in w.masks[p] && DomOfCpu(w.cfg, c) == d
  }

  ghost predicate Lowest(cpus: set<nat>, c: int) {
    c >= 0 && c in cpus && forall k :: k in cpus ==> c <= k
  }

  /** The previous CPU is idle and belongs to the task's domain. */
  ghost predicate PrevFree(w: World, s: State, p: nat, prev: int)
    requires ValidWorld(w) && WellFormed(w, s) && p < |w.masks|
  {
    0 <= prev < w.cfg.nrCpus && s.idle[prev] && DomOfCpu(w.cfg, prev) == DomOf(s, p)
  }

  /** CPU `c` is where a wakeup of `p` belongs, -1 if it has to wait. */
  ghost predicate Belongs(w: World, s: State, p: nat, prev: int, c: int)
    requires ValidWorld(w) && WellFormed(w, s) && p < |w.masks|
  {
    var own, other := FreeCpus(w, s.idle, p, DomOf(s, p)), FreeCpus(w, s.idle, p, Other(DomOf(s, p)));
    if PrevFree(w, s, p, prev) then c == prev
    else if own != {} then Lowest(own, c)
    else if !w.cfg.strict && other != {} then Lowest(other, c)
    else c == -1
  }

  /** The slice of domain `d`. */
  function SliceOf(cfg: Config, d: Dom): nat {
    match d
    case Big => cfg.sliceBig
    case Little => cfg.sliceLittle
  }

  /** The state after a wakeup of `p` that lands on `c`, or waits if `c` is -1. */
  ghost predicate Landed(w: World, s: State, r: State, p: nat, c: int)
    requires ValidWorld(w) && WellFormed(w, s) && p < |w.masks| && c < w.cfg.nrCpus
  {
    var astray := c >= 0 && DomOfCpu(w.cfg, c) != DomOf(s, p);
    var st := s.stats;
    r == s.(local := if c >= 0 then s.local[c := [Entry(p, SliceOf(w.cfg, DomOf(s, p)))]] else s.local,
            idle := if c >= 0 then s.idle[c := false] else s.idle,
            pending := if c >= 0 then s.pending else s.pending + {p},
            runnable := s.runnable + {p},
            stats := st.(direct := st.direct + One(c >= 0), steal := st.steal + One(astray),
                         noIdle := st.noIdle + One(c < 0 || astray)))
  }

  lemma ScanIsLowest(w: World, s: State, p: nat, d: Dom)
    requires ValidWorld(w) && WellFormed(w, s) && p < |w.masks|
    ensures var c, free := FirstIdle(w, s.idle, p, d, 0), FreeCpus(w, s.idle, p, d);
            if free == {} then c == -1 else Lowest(free, c)
  {
    var c, free := FirstIdle(w, s.idle, p, d, 0), FreeCpus(w, s.idle, p, d);
    forall k | k in free ensures Claimable(w, s.idle, p, d, k) {
    }
    if c >= 0 {
      assert Claimable(w, s.idle, p, d, c);
      assert c in free;
    }
  }

  /** A wakeup puts the task where it belongs, returns that CPU, and changes nothing else. */
  lemma WakeupLands(w: World, s: State, p: nat, prev: int) returns (c: int)
    requires ValidWorld(w) && Neat(w, s) && Enabled(w, s, SelectCpu(p, prev))
    ensures Belongs(w, s, p, prev, c) && c < w.cfg.nrCpus
    ensures var (r, k) := SelectStep(w, s, p, prev); Landed(w, s, r, p, c) && k == if c >= 0 then c else prev
  {
    var d := DomOf(s, p);
    ScanIsLowest(w, s, p, d);
    ScanIsLowest(w, s, p, Other(d));
    c := PickIdle(w, s.idle, p, d, prev);
    if c < 0 && !w.cfg.strict {
      c := PickIdle(w, s.idle, p, Other(d), -1);
    }
    if c >= 0 {
      assert s.local[c] + [Entry(p, Slice(w.cfg, d))] == [Entry(p, SliceOf(w.cfg, d))];
    }
  }

  /** The task waits exactly when the previous CPU is of no use, its own domain has no allowed idle CPU,
      and the partition is strict or the other domain has none either. */
  lemma WaitsExactly(w: World, s: State, p: nat, prev: int)
    requires ValidWorld(w) && Neat(w, s) && Enabled(w, s, SelectCpu(p, prev)) && p !in s.pending
    ensures p in SelectStep(w, s, p, prev).0.pending <==>
            && !PrevFree(w, s, p, prev) && FreeCpus(w, s.idle, p, DomOf(s, p)) == {}
            && (w.cfg.strict || FreeCpus(w, s.idle, p, Other(DomOf(s, p))) == {})
  {
    var c := WakeupLands(w, s, p, prev);
  }

  /** Over every run of a partition that is not strict: a wakeup waits exactly when no idle CPU may run
      the task and its previous CPU is of no use. */
  lemma NoWaitBesideIdle(w: World, evs: seq<Event>, p: nat, prev: int)
    requires ValidRun(w, evs) && Enabled(w, Reached(w, evs), SelectCpu(p, prev)) && !w.cfg.strict
    ensures ValidRun(w, evs + [SelectCpu(p, prev)])
    ensures var s, r := Reached(w, evs), Reached(w, evs + [SelectCpu(p, prev)]);
            p in r.pending <==>
              !PrevFree(w, s, p, prev) && forall c :: 0 <= c < w.cfg.nrCpus && s.idle[c] ==> c !in w.masks[p]
  {
    var s, all := Reached(w, evs), evs + [SelectCpu(p, prev)];
    assert all[..|all| - 1] == evs;
    RunOrderly(w, evs);
    SleepsNowhere(s, p);
    WaitsExactly(w, s, p, prev);
    NobodyFree(w, s, p);
  }

  lemma NobodyFree(w: World, s: State, p: nat)
    requires ValidWorld(w) && WellFormed(w, s) && p < |w.masks|
    ensures FreeCpus(w, s.idle, p, DomOf(s, p)) == {} && FreeCpus(w, s.idle, p, Other(DomOf(s, p))) == {}
            <==> forall c :: 0 <= c < w.cfg.nrCpus && s.idle[c] ==> c !in w.masks[p]
  {
    var own, other := FreeCpus(w, s.idle, p, DomOf(s, p)), FreeCpus(w, s.idle, p, Other(DomOf(s, p)));
    forall c: nat | c < w.cfg.nrCpus && s.idle[c] && c in w.masks[p] ensures c in own || c in other {
    }
  }

  /** An enqueue appends the task to its domain's queue with that domain's slice and kicks the lowest
      allowed idle CPU of the domain, if there is one. */
  lemma EnqueueLands(w: World, s: State, p: nat) returns (c: int)
    requires ValidWorld(w) && WellFormed(w, s) && Enabled(w, s, Enqueue(p))
    ensures var free := FreeCpus(w, s.idle, p, DomOf(s, p)); if free == {} then c == -1 else Lowest(free, c)
    ensures c < w.cfg.nrCpus
    ensures var d, st, e := DomOf(s, p), s.stats, Entry(p, SliceOf(w.cfg, DomOf(s, p)));
            EnqueueStep(w, s, p)
            == s.(big := if d == Big then s.big + [e] else s.big,
                  little := if d == Little then s.little + [e] else s.little,
                  pending := s.pending - {p},
                  idle := if c >= 0 then s.idle[c := false] else s.idle,
                  kicked := if c >= 0 then s.kicked[c := true] else s.kicked,
                  stats := st.(enq := st.enq + 1, dsqBig := st.dsqBig + One(d == Big),
                               dsqLittle := st.dsqLittle + One(d == Little)))
  {
    ScanIsLowest(w, s, p, DomOf(s, p));
    c := FirstIdle(w, s.idle, p, DomOf(s, p), 0);
    assert DomOf(s, p) == Big || DomOf(s, p) == Little;
  }

  /** No entry of the queue may run on CPU `c`. */
  ghost predicate NothingFor(masks: seq<set<int>>, q: seq<Entry>, c: nat)
    requires QueueOk(|masks|, q)
  {
    forall i :: 0 <= i < |q| ==> c !in masks[q[i].task]
  }

  ghost predicate FirstFor(masks: seq<set<int>>, q: seq<Entry>, c: nat, i: nat)
    requires QueueOk(|masks|, q)
  {
    i < |q| && c in masks[q[i].task] && forall k :: 0 <= k < i ==> c !in masks[q[k].task]
  }

  /** A dispatch that finds nothing in its own queue, nor, unless strict, in the other one, puts the CPU
      to sleep if it runs nothing, and does nothing else. */
  lemma DispatchSleeps(w: World, s: State, c: nat)
    requires ValidWorld(w) && WellFormed(w, s) && Enabled(w, s, Dispatch(c))
    requires NothingFor(w.masks, Dsq(s, DomOfCpu(w.cfg, c)), c)
    requires w.cfg.strict || NothingFor(w.masks, Dsq(s, Other(DomOfCpu(w.cfg, c))), c)
    ensures DispatchStep(w, s, c)
            == s.(kicked := s.kicked[c := false], idle := if s.curr[c].None? then s.idle[c := true] else s.idle)
  {
  }

  /** Otherwise it takes the first entry that may run there, from its own queue if that has one. */
  lemma DispatchTakes(w: World, s: State, c: nat, d: Dom, i: nat)
    requires ValidWorld(w) && WellFormed(w, s) && Enabled(w, s, Dispatch(c)) && FirstFor(w.masks, Dsq(s, d), c, i)
    requires d == DomOfCpu(w.cfg, c) || (!w.cfg.strict && NothingFor(w.masks, Dsq(s, DomOfCpu(w.cfg, c)), c))
    ensures var q, own, st := Dsq(s, d), d == DomOfCpu(w.cfg, c), s.stats;
            DispatchStep(w, s, c)
            == s.(big := if d == Big then q[..i] + q[i + 1..] else s.big,
                  little := if d == Little then q[..i] + q[i + 1..] else s.little,
                  local := s.local[c := [q[i]]], kicked := s.kicked[c := false],
                  stats := st.(localHit := st.localHit + One(own), steal := st.steal + One(!own)))
  {
    assert FirstAllowed(w, Dsq(s, d), c, 0) == i;
    assert s.local[c] + [Dsq(s, d)[i]] == [Dsq(s, d)[i]];
    assert d == Big || d == Little;
  }

  /** Every waiting entry carries the slice of the task's domain, in every reachable state. */
  lemma SlicesFollowDomains(w: World, evs: seq<Event>)
    requires ValidRun(w, evs)
    ensures var s := Reached(w, evs);
            && (forall i :: 0 <= i < |s.little| ==>
                              DomOf(s, s.little[i].task) == Little && s.little[i].slice == w.cfg.sliceLittle)
            && (forall i :: 0 <= i < |s.big| ==> DomOf(s, s.big[i].task) == Big && s.big[i].slice == w.cfg.sliceBig)
            && (forall c, i :: 0 <= c < |s.local| && 0 <= i < |s.local[c]| ==>
                                 s.local[c][i].slice == SliceOf(w.cfg, DomOf(s, s.local[c][i].task)))
  {
    RunOrderly(w, evs);
  }
}
