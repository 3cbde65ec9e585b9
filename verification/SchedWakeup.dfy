/**
 No lost wakeup: when the masks of the tasks fall into classes within a domain, the queued tasks that
 an idle CPU may run never outnumber the kicks on their way to their class; with unrestricted affinity
 a domain with an idle CPU never has more queued tasks than kicks. The property is per domain and it
 needs a CPU to look at the queues before it sleeps; `SchedLimits` shows what lies beyond.
 */
module SchedWakeup {
  import opened Wrappers
  import opened Domains
  import opened SchedModel
  import opened SchedPartition

  ghost predicate Unrestricted(w: World) {
    forall p, c :: 0 <= p < |w.masks| && 0 <= c < w.cfg.nrCpus ==> c in w.masks[p]
  }

  /** CPUs of domain `d` that were kicked and have not dispatched since. */
  ghost function KickedIn(cfg: Config, kicked: seq<bool>, d: Dom): set<nat>
    requires |cfg.cpuDom| == MAX_CPUS && |kicked| == cfg.nrCpus
  {
    set c: nat | c < cfg.nrCpus && DomOfCpu(cfg, c) == d && kicked[c]
  }

  ghost predicate HasIdle(cfg: Config, idle: seq<bool>, d: Dom)
    requires |cfg.cpuDom| == MAX_CPUS && |idle| == cfg.nrCpus
  {
    exists c :: 0 <= c < cfg.nrCpus && DomOfCpu(cfg, c) == d && idle[c]
  }

  ghost predicate Covered(cfg: Config, idle: seq<bool>, kicked: seq<bool>, d: Dom, queued: nat)
    requires |cfg.cpuDom| == MAX_CPUS && |idle| == |kicked| == cfg.nrCpus
  {
    HasIdle(cfg, idle, d) ==> |KickedIn(cfg, kicked, d)| >= queued
  }

  ghost predicate Awake(w: World, s: State, d: Dom)
    requires ValidWorld(w) && WellFormed(w, s)
  {
    Covered(w.cfg, s.idle, s.kicked, d, |Dsq(s, d)|)
  }

  /** A kicked CPU has nothing of its own yet. */
  ghost predicate KickTidy(local: seq<seq<Entry>>, curr: seq<Option<nat>>, kicked: seq<bool>)
    requires |local| == |curr| == |kicked|
  {
    forall c :: 0 <= c < |kicked| && kicked[c] ==> local[c] == [] && curr[c].None?
  }

  ghost predicate Alert(w: World, s: State)
    requires ValidWorld(w) && WellFormed(w, s)
  {
    Awake(w, s, Big) && Awake(w, s, Little) && KickTidy(s.local, s.curr, s.kicked)
  }

  // ---------------------------------------------------------------- preservation

  /** Queue, idle bits and kicks after `bls_enqueue`. */
  lemma EnqueueQueues(w: World, s: State, p: nat)
    requires ValidWorld(w) && WellFormed(w, s) && p < |w.masks|
    ensures var d := DomOf(s, p);
            var r := EnqueueStep(w, s, p);
            var c := FirstIdle(w, s.idle, p, d, 0);
            && Dsq(r, d) == Dsq(s, d) + [Entry(p, Slice(w.cfg, d))] && Dsq(r, Other(d)) == Dsq(s, Other(d))
            && r.local == s.local && r.curr == s.curr
            && r.idle == (if c >= 0 then s.idle[c := false] else s.idle)
            && r.kicked == (if c >= 0 then s.kicked[c := true] else s.kicked)
  {
  }

  lemma FetchedQueues(w: World, s: State, c: nat, d: Dom, i: nat)
    requires ValidWorld(w) && WellFormed(w, s) && c < w.cfg.nrCpus && i < |Dsq(s, d)|
    ensures var r := Fetched(w, s, c, d, i);
            && Dsq(r, d) == Dsq(s, d)[..i] + Dsq(s, d)[i + 1..] && Dsq(r, Other(d)) == Dsq(s, Other(d))
            && (i == 0 ==> Dsq(r, d) == Dsq(s, d)[1..])
            && r.idle == s.idle && r.curr == s.curr && r.kicked == s.kicked[c := false]
            && r.local == s.local[c := s.local[c] + [Dsq(s, d)[i]]]
  {
  }

  // ---------------------------------------------------------------- affinity classes

  /** The CPUs of domain `d` that task `p` may use. */
  ghost function MaskIn(w: World, p: nat, d: Dom): set<nat>
    requires ValidWorld(w) && p < |w.masks|
  {
    set c: nat | c < w.cfg.nrCpus && DomOfCpu(w.cfg, c) == d && c in w.masks[p]
  }

  /** Within a domain the masks of any two tasks are equal or disjoint. */
  ghost predicate Classed(w: World)
    requires ValidWorld(w)
  {
    forall p: nat, q: nat, d :: p < |w.masks| && q < |w.masks| ==>
      MaskIn(w, p, d) == MaskIn(w, q, d) || MaskIn(w, p, d) !! MaskIn(w, q, d)
  }

  lemma UnrestrictedIsClassed(w: World)
    requires ValidWorld(w) && Unrestricted(w)
    ensures Classed(w)
  {
    forall p: nat, q: nat, d | p < |w.masks| && q < |w.masks| ensures MaskIn(w, p, d) == MaskIn(w, q, d) {
    }
  }

  /** How many entries of the queue may run on CPU `c`. */
  ghost function Waiting(masks: seq<set<int>>, q: seq<Entry>, c: nat): nat
    requires QueueOk(|masks|, q)
  {
    if q == [] then 0 else Waiting(masks, q[..|q| - 1], c) + if c in masks[q[|q| - 1].task] then 1 else 0
  }

  lemma {:induction false} WaitingConcat(masks: seq<set<int>>, a: seq<Entry>, b: seq<Entry>, c: nat)
    requires QueueOk(|masks|, a) && QueueOk(|masks|, b)
    ensures QueueOk(|masks|, a + b)
    ensures Waiting(masks, a + b, c) == Waiting(masks, a, c) + Waiting(masks, b, c)
    decreases |b|
  {
    if b == [] {
      assert a + b == a;
    } else {
      var n := |b| - 1;
      assert (a + b)[..|a + b| - 1] == a + b[..n];
      WaitingConcat(masks, a, b[..n], c);
    }
  }

  lemma WaitingPush(masks: seq<set<int>>, q: seq<Entry>, e: Entry, c: nat)
    requires QueueOk(|masks|, q) && e.task < |masks|
    ensures QueueOk(|masks|, q + [e])
    ensures Waiting(masks, q + [e], c) == Waiting(masks, q, c) + if c in masks[e.task] then 1 else 0
  {
    assert (q + [e])[..|q + [e]| - 1] == q;
  }

  lemma WaitingPop(masks: seq<set<int>>, q: seq<Entry>, i: nat, c: nat)
    requires QueueOk(|masks|, q) && i < |q|
    ensures QueueOk(|masks|, q[..i] + q[i + 1..])
    ensures Waiting(masks, q[..i] + q[i + 1..], c) + (if c in masks[q[i].task] then 1 else 0) == Waiting(masks, q, c)
  {
    assert q == q[..i] + [q[i]] + q[i + 1..];
    WaitingConcat(masks, q[..i], q[i + 1..], c);
    WaitingPush(masks, q[..i], q[i], c);
    WaitingConcat(masks, q[..i] + [q[i]], q[i + 1..], c);
  }

  /** If any are waiting, there is one. */
  lemma {:induction false} SomeWaits(masks: seq<set<int>>, q: seq<Entry>, c: nat) returns (i: nat)
    requires QueueOk(|masks|, q) && Waiting(masks, q, c) > 0
    ensures i < |q| && c in masks[q[i].task]
  {
    i := |q| - 1;
    if c !in masks[q[i].task] {
      i := SomeWaits(masks, q[..i], c);
    }
  }

  lemma {:induction false} AllWait(masks: seq<set<int>>, q: seq<Entry>, c: nat)
    requires QueueOk(|masks|, q) && forall i :: 0 <= i < |q| ==> c in masks[q[i].task]
    ensures Waiting(masks, q, c) == |q|
  {
    if q != [] {
      AllWait(masks, q[..|q| - 1], c);
    }
  }

  /** The kicked CPUs of domain `d` that task `p` may use. */
  ghost function KickedFor(w: World, kicked: seq<bool>, p: nat, d: Dom): set<nat>
    requires ValidWorld(w) && |kicked| == w.cfg.nrCpus && p < |w.masks|
  {
    KickedIn(w.cfg, kicked, d) * MaskIn(w, p, d)
  }

  /** The tasks of queue `q` that may run on CPU `c` have a kick each on its way to their class. */
  ghost predicate ServedAt(w: World, kicked: seq<bool>, q: seq<Entry>, d: Dom, c: nat)
    requires ValidWorld(w) && |kicked| == w.cfg.nrCpus && QueueOk(|w.masks|, q)
  {
    forall i :: 0 <= i < |q| && c in w.masks[q[i].task] ==>
      |KickedFor(w, kicked, q[i].task, d)| >= Waiting(w.masks, q, c)
  }

  ghost predicate Served(w: World, idle: seq<bool>, kicked: seq<bool>, q: seq<Entry>, d: Dom)
    requires ValidWorld(w) && |idle| == |kicked| == w.cfg.nrCpus && QueueOk(|w.masks|, q)
  {
    forall c: nat :: c < w.cfg.nrCpus && DomOfCpu(w.cfg, c) == d && idle[c] ==> ServedAt(w, kicked, q, d, c)
  }

  ghost predicate Tended(w: World, s: State)
    requires ValidWorld(w) && WellFormed(w, s)
  {
    && Served(w, s.idle, s.kicked, s.big, Big) && Served(w, s.idle, s.kicked, s.little, Little)
    && KickTidy(s.local, s.curr, s.kicked)
  }

  // ---------------------------------------------------------------- one queue

  lemma KickFor(w: World, kicked: seq<bool>, b: nat, p: nat, d: Dom)
    requires ValidWorld(w) && |kicked| == w.cfg.nrCpus && p < |w.masks| && b < w.cfg.nrCpus && !kicked[b]
    ensures |KickedFor(w, kicked[b := true], p, d)|
            == |KickedFor(w, kicked, p, d)| + if b in MaskIn(w, p, d) then 1 else 0
  {
    var k, k' := KickedFor(w, kicked, p, d), KickedFor(w, kicked[b := true], p, d);
    assert k' == if b in MaskIn(w, p, d) then k + {b} else k;
  }

  lemma ClearFor(w: World, kicked: seq<bool>, b: nat, p: nat, d: Dom)
    requires ValidWorld(w) && |kicked| == w.cfg.nrCpus && p < |w.masks| && b < w.cfg.nrCpus
    ensures |KickedFor(w, kicked[b := false], p, d)|
            >= |KickedFor(w, kicked, p, d)| - if b in MaskIn(w, p, d) then 1 else 0
  {
    var k, k' := KickedFor(w, kicked, p, d), KickedFor(w, kicked[b := false], p, d);
    assert k' == if b in MaskIn(w, p, d) then k - {b} else k;
  }

  lemma SameClass(w: World, p: nat, q: nat, d: Dom, c: nat)
    requires ValidWorld(w) && Classed(w) && p < |w.masks| && q < |w.masks|
    requires c in MaskIn(w, p, d) && c in MaskIn(w, q, d)
    ensures MaskIn(w, p, d) == MaskIn(w, q, d)
  {
  }

  /** A task that joins the queue and kicks CPU `b` leaves every other idle CPU served. */
  lemma PushServed(w: World, kicked: seq<bool>, q: seq<Entry>, e: Entry, d: Dom, b: nat, c: nat)
    requires ValidWorld(w) && Classed(w) && |kicked| == w.cfg.nrCpus && QueueOk(|w.masks|, q) && e.task < |w.masks|
    requires b in MaskIn(w, e.task, d) && !kicked[b] && c < w.cfg.nrCpus && DomOfCpu(w.cfg, c) == d
    requires ServedAt(w, kicked, q, d, c)
    ensures QueueOk(|w.masks|, q + [e]) && ServedAt(w, kicked[b := true], q + [e], d, c)
  {
    var q' := q + [e];
    WaitingPush(w.masks, q, e, c);
    forall i | 0 <= i < |q'| && c in w.masks[q'[i].task]
      ensures |KickedFor(w, kicked[b := true], q'[i].task, d)| >= Waiting(w.masks, q', c)
    {
      var p := q'[i].task;
      KickFor(w, kicked, b, p, d);
      if c in w.masks[e.task] {
        SameClass(w, p, e.task, d, c);
        if Waiting(w.masks, q, c) > 0 {
          var j := SomeWaits(w.masks, q, c);
          SameClass(w, p, q[j].task, d, c);
        }
      }
    }
  }

  /** A task that joins the queue and may not run on `c` does not matter to `c`. */
  lemma PushElsewhere(w: World, kicked: seq<bool>, q: seq<Entry>, e: Entry, d: Dom, c: nat)
    requires ValidWorld(w) && |kicked| == w.cfg.nrCpus && QueueOk(|w.masks|, q) && e.task < |w.masks|
    requires c !in w.masks[e.task] && ServedAt(w, kicked, q, d, c)
    ensures QueueOk(|w.masks|, q + [e]) && ServedAt(w, kicked, q + [e], d, c)
  {
    WaitingPush(w.masks, q, e, c);
  }

  /** CPU `k` takes entry `j`, which it may run. */
  lemma PopServed(w: World, kicked: seq<bool>, q: seq<Entry>, j: nat, k: nat, d: Dom, c: nat)
    requires ValidWorld(w) && Classed(w) && |kicked| == w.cfg.nrCpus && QueueOk(|w.masks|, q)
    requires j < |q| && k < w.cfg.nrCpus && k in w.masks[q[j].task]
    requires c < w.cfg.nrCpus && DomOfCpu(w.cfg, c) == d && ServedAt(w, kicked, q, d, c)
    ensures QueueOk(|w.masks|, q[..j] + q[j + 1..])
    ensures ServedAt(w, kicked[k := false], q[..j] + q[j + 1..], d, c)
  {
    var q' := q[..j] + q[j + 1..];
    WaitingPop(w.masks, q, j, c);
    forall i | 0 <= i < |q'| && c in w.masks[q'[i].task]
      ensures |KickedFor(w, kicked[k := false], q'[i].task, d)| >= Waiting(w.masks, q', c)
    {
      var i0 := if i < j then i else i + 1;
      var p := q[i0].task;
      assert q'[i] == q[i0];
      ClearFor(w, kicked, k, p, d);
      if k in MaskIn(w, p, d) {
        SameClass(w, p, q[j].task, d, k);
        assert c in MaskIn(w, p, d);
      }
    }
  }

  /** CPU `k`, which may run none of the queue's tasks or belongs to the other domain, uses up its kick. */
  lemma MissServed(w: World, kicked: seq<bool>, q: seq<Entry>, k: nat, d: Dom, c: nat)
    requires ValidWorld(w) && |kicked| == w.cfg.nrCpus && QueueOk(|w.masks|, q) && k < w.cfg.nrCpus
    requires ServedAt(w, kicked, q, d, c)
    requires DomOfCpu(w.cfg, k) == d ==> forall i :: 0 <= i < |q| ==> k !in w.masks[q[i].task]
    ensures ServedAt(w, kicked[k := false], q, d, c)
  {
    forall i | 0 <= i < |q| && c in w.masks[q[i].task]
      ensures |KickedFor(w, kicked[k := false], q[i].task, d)| >= Waiting(w.masks, q, c)
    {
      ClearFor(w, kicked, k, q[i].task, d);
      assert k !in MaskIn(w, q[i].task, d);
    }
  }

  // ---------------------------------------------------------------- one call

  lemma EnqueueServes(w: World, s: State, p: nat)
    requires ValidWorld(w) && Classed(w) && Neat(w, s) && Enabled(w, s, Enqueue(p))
    requires Served(w, s.idle, s.kicked, Dsq(s, DomOf(s, p)), DomOf(s, p))
    ensures var r := EnqueueStep(w, s, p); Served(w, r.idle, r.kicked, Dsq(r, DomOf(s, p)), DomOf(s, p))
  {
    EnqueueQueues(w, s, p);
    var d, r := DomOf(s, p), EnqueueStep(w, s, p);
    var e, b := Entry(p, Slice(w.cfg, d)), FirstIdle(w, s.idle, p, d, 0);
    forall c: nat | c < w.cfg.nrCpus && DomOfCpu(w.cfg, c) == d && r.idle[c]
      ensures ServedAt(w, r.kicked, Dsq(s, d) + [e], d, c)
    {
      if b >= 0 {
        PushServed(w, s.kicked, Dsq(s, d), e, d, b, c);
      } else {
        assert !Claimable(w, s.idle, p, d, c);
        PushElsewhere(w, s.kicked, Dsq(s, d), e, d, c);
      }
    }
  }

  /** The queue of the other domain sees at most one more kick elsewhere and one idle CPU fewer. */
  lemma EnqueueElsewhere(w: World, s: State, p: nat)
    requires ValidWorld(w) && Neat(w, s) && Enabled(w, s, Enqueue(p))
    requires Served(w, s.idle, s.kicked, Dsq(s, Other(DomOf(s, p))), Other(DomOf(s, p)))
    ensures var r := EnqueueStep(w, s, p);
            Served(w, r.idle, r.kicked, Dsq(r, Other(DomOf(s, p))), Other(DomOf(s, p)))
  {
    EnqueueQueues(w, s, p);
    var d, r := Other(DomOf(s, p)), EnqueueStep(w, s, p);
    var b, q := FirstIdle(w, s.idle, p, DomOf(s, p), 0), Dsq(s, Other(DomOf(s, p)));
    forall c: nat | c < w.cfg.nrCpus && DomOfCpu(w.cfg, c) == d && r.idle[c]
      ensures ServedAt(w, r.kicked, q, d, c)
    {
      forall i | 0 <= i < |q| && c in w.masks[q[i].task]
        ensures |KickedFor(w, r.kicked, q[i].task, d)| >= Waiting(w.masks, q, c)
      {
        if b >= 0 {
          KickFor(w, s.kicked, b, q[i].task, d);
        }
      }
    }
  }

  lemma DispatchServes(w: World, s: State, k: nat, d: Dom)
    requires ValidWorld(w) && Classed(w) && WellFormed(w, s) && k < w.cfg.nrCpus
    requires Served(w, s.idle, s.kicked, Dsq(s, d), d)
    ensures var r := DispatchStep(w, s, k); Served(w, r.idle, r.kicked, Dsq(r, d), d)
  {
    var r, src := DispatchStep(w, s, k), Source(w, s, k);
    if src.Some? {
      var j := src.value.1;
      FetchedQueues(w, s, k, src.value.0, j);
      forall c: nat | c < w.cfg.nrCpus && DomOfCpu(w.cfg, c) == d && s.idle[c]
        ensures ServedAt(w, s.kicked[k := false], Dsq(Fetched(w, s, k, src.value.0, j), d), d, c)
      {
        if src.value.0 == d {
          PopServed(w, s.kicked, Dsq(s, d), j, k, d, c);
        } else {
          MissServed(w, s.kicked, Dsq(s, d), k, d, c);
        }
      }
    } else {
      MissedQueues(w, s, k);
      forall c: nat | c < w.cfg.nrCpus && DomOfCpu(w.cfg, c) == d && r.idle[c]
        ensures ServedAt(w, s.kicked[k := false], Dsq(s, d), d, c)
      {
        if c != k {
          MissServed(w, s.kicked, Dsq(s, d), k, d, c);
        }
      }
    }
  }

  lemma MissedQueues(w: World, s: State, k: nat)
    requires ValidWorld(w) && WellFormed(w, s) && k < w.cfg.nrCpus && Source(w, s, k).None?
    ensures var r := DispatchStep(w, s, k);
            && r.big == s.big && r.little == s.little && r.local == s.local && r.curr == s.curr
            && r.kicked == s.kicked[k := false] && r.idle == (if s.curr[k].None? then s.idle[k := true] else s.idle)
    ensures forall i :: 0 <= i < |Dsq(s, DomOfCpu(w.cfg, k))| ==> k !in w.masks[Dsq(s, DomOfCpu(w.cfg, k))[i].task]
  {
  }

  lemma StepTidy(w: World, s: State, ev: Event)
    requires ValidWorld(w) && Neat(w, s) && Enabled(w, s, ev) && KickTidy(s.local, s.curr, s.kicked)
    ensures var r := Step(w, s, ev); KickTidy(r.local, r.curr, r.kicked)
  {
    if ev.Enqueue? {
      EnqueueQueues(w, s, ev.p);
    } else if ev.Dispatch? {
      DispatchTidy(w, s, ev.c);
    } else if ev.SelectCpu? {
      var c := SelectLocal(w, s, ev.p, ev.prev);
      SelectKeepsKicks(w, s, ev.p, ev.prev);
    }
  }

  lemma DispatchTidy(w: World, s: State, c: nat)
    requires ValidWorld(w) && WellFormed(w, s) && c < w.cfg.nrCpus && KickTidy(s.local, s.curr, s.kicked)
    ensures var r := DispatchStep(w, s, c); KickTidy(r.local, r.curr, r.kicked)
  {
    if Source(w, s, c).Some? {
      FetchedQueues(w, s, c, Source(w, s, c).value.0, Source(w, s, c).value.1);
    } else {
      MissedQueues(w, s, c);
    }
  }

  lemma {:induction false} RunTidy(w: World, evs: seq<Event>)
    requires ValidRun(w, evs)
    ensures var s := Reached(w, evs); KickTidy(s.local, s.curr, s.kicked)
  {
    if evs != [] {
      var before := evs[..|evs| - 1];
      LastStep(w, evs);
      RunTidy(w, before);
      RunOrderly(w, before);
      StepTidy(w, Reached(w, before), evs[|evs| - 1]);
    }
  }

  /** `bls_select_cpu` leaves queues and kicks alone and makes no CPU idle. */
  lemma SelectKeepsKicks(w: World, s: State, p: nat, prev: int)
    requires ValidWorld(w) && WellFormed(w, s) && p < |w.masks|
    ensures var r := SelectStep(w, s, p, prev).0;
            && r.kicked == s.kicked && r.big == s.big && r.little == s.little && r.curr == s.curr
            && forall c :: 0 <= c < |s.idle| && r.idle[c] ==> s.idle[c]
  {
  }

  lemma QuietServes(w: World, s: State, ev: Event)
    requires ValidWorld(w) && WellFormed(w, s) && Enabled(w, s, ev) && !ev.Enqueue? && !ev.Dispatch?
    ensures var r := Step(w, s, ev);
            && r.kicked == s.kicked && r.big == s.big && r.little == s.little
            && forall c :: 0 <= c < |s.idle| && r.idle[c] ==> s.idle[c]
  {
    if ev.SelectCpu? {
      SelectKeepsKicks(w, s, ev.p, ev.prev);
    }
  }

  lemma StepTended(w: World, s: State, ev: Event)
    requires ValidWorld(w) && Classed(w) && Neat(w, s) && Tended(w, s) && Enabled(w, s, ev)
    ensures Tended(w, Step(w, s, ev))
  {
    StepTidy(w, s, ev);
    if ev.Enqueue? {
      EnqueueServes(w, s, ev.p);
      EnqueueElsewhere(w, s, ev.p);
    } else if ev.Dispatch? {
      DispatchServes(w, s, ev.c, Big);
      DispatchServes(w, s, ev.c, Little);
    } else {
      QuietServes(w, s, ev);
    }
  }

  /** No lost wakeup with affinity classes, over every run: for every idle CPU, the queued tasks of its
      domain that may run there have at least as many kicks on their way to CPUs they may use. */
  lemma {:induction false} NoLostWakeupInClasses(w: World, evs: seq<Event>)
    requires ValidRun(w, evs) && Classed(w)
    ensures Tended(w, Reached(w, evs))
  {
    if evs != [] {
      var before := evs[..|evs| - 1];
      LastStep(w, evs);
      NoLostWakeupInClasses(w, before);
      RunOrderly(w, before);
      StepTended(w, Reached(w, before), evs[|evs| - 1]);
    }
  }

  /** So once no kick is outstanding in a domain, none of its idle CPUs sits beside a queued task that
      it may run. */
  lemma NoKickNoStrand(w: World, evs: seq<Event>, d: Dom, c: nat, i: nat)
    requires ValidRun(w, evs) && Classed(w) && KickedIn(w.cfg, Reached(w, evs).kicked, d) == {}
    requires c < w.cfg.nrCpus && DomOfCpu(w.cfg, c) == d && Reached(w, evs).idle[c] && i < |Dsq(Reached(w, evs), d)|
    ensures c !in w.masks[Dsq(Reached(w, evs), d)[i].task]
  {
    var s := Reached(w, evs);
    NoLostWakeupInClasses(w, evs);
    assert Served(w, s.idle, s.kicked, Dsq(s, d), d) by { assert d == Big || d == Little; }
    assert ServedAt(w, s.kicked, Dsq(s, d), d, c);
    assert KickedFor(w, s.kicked, Dsq(s, d)[i].task, d) == {};
    if c in w.masks[Dsq(s, d)[i].task] {
      CountsSelf(w.masks, Dsq(s, d), c, i);
    }
  }

  lemma CountsSelf(masks: seq<set<int>>, q: seq<Entry>, c: nat, i: nat)
    requires QueueOk(|masks|, q) && i < |q| && c in masks[q[i].task]
    ensures Waiting(masks, q, c) >= 1
  {
    WaitingPop(masks, q, i, c);
  }

  // ---------------------------------------------------------------- unrestricted affinity

  /** With every CPU allowed a served domain is covered as a whole. */
  lemma ServedIsCovered(w: World, idle: seq<bool>, kicked: seq<bool>, q: seq<Entry>, d: Dom)
    requires ValidWorld(w) && Unrestricted(w) && |idle| == |kicked| == w.cfg.nrCpus && QueueOk(|w.masks|, q)
    requires Served(w, idle, kicked, q, d)
    ensures Covered(w.cfg, idle, kicked, d, |q|)
  {
    if HasIdle(w.cfg, idle, d) && q != [] {
      var c: nat :| c < w.cfg.nrCpus && DomOfCpu(w.cfg, c) == d && idle[c];
      AllWait(w.masks, q, c);
      assert c in w.masks[q[0].task];
      assert ServedAt(w, kicked, q, d, c);
      assert KickedFor(w, kicked, q[0].task, d) == KickedIn(w.cfg, kicked, d);
    }
  }

  /** No lost wakeup, over every run: a domain with an idle CPU has at least as many kicks under way
      as queued tasks; so once no kick is outstanding, either its queue is empty or all its CPUs are busy. */
  lemma NoLostWakeup(w: World, evs: seq<Event>)
    requires ValidRun(w, evs) && Unrestricted(w)
    ensures Alert(w, Reached(w, evs))
    ensures forall d :: KickedIn(w.cfg, Reached(w, evs).kicked, d) == {} ==>
                          Dsq(Reached(w, evs), d) == [] || !HasIdle(w.cfg, Reached(w, evs).idle, d)
  {
    var s := Reached(w, evs);
    UnrestrictedIsClassed(w);
    NoLostWakeupInClasses(w, evs);
    ServedIsCovered(w, s.idle, s.kicked, s.big, Big);
    ServedIsCovered(w, s.idle, s.kicked, s.little, Little);
    forall d | KickedIn(w.cfg, s.kicked, d) == {}
      ensures Dsq(s, d) == [] || !HasIdle(w.cfg, s.idle, d)
    {
      assert Awake(w, s, d) by { assert d == Big || d == Little; }
    }
  }
}
