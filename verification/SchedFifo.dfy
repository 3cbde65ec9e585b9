/**
 Arrival order: with unrestricted affinity each shared queue is served strictly in the order in
 which `bls_enqueue` filled it, whoever serves it. With masks, a task is only overtaken on CPUs
 where it may not run.
 */
module SchedFifo {
  import opened Wrappers
  import opened Domains
  import opened SchedModel
  import opened SchedConservation
  import opened SchedPartition
  import opened SchedWakeup

  /** Tasks that the call adds to queue `d`. */
  ghost function Joins(w: World, s: State, ev: Event, d: Dom): seq<nat>
    requires ValidWorld(w) && WellFormed(w, s) && Enabled(w, s, ev)
  {
    if ev.Enqueue? && ev.p < |s.ctx| && DomOf(s, ev.p) == d then [ev.p] else []
  }

  /** Tasks that the call takes off queue `d`: what shows up on the CPU's local queue when `d` gets shorter. */
  ghost function Leaves(w: World, s: State, ev: Event, d: Dom): seq<nat>
    requires ValidWorld(w) && WellFormed(w, s) && Enabled(w, s, ev)
  {
    if ev.Dispatch? && |Dsq(Step(w, s, ev), d)| < |Dsq(s, d)| then Ids(Step(w, s, ev).local[ev.c]) else []
  }

  ghost function Joined(w: World, evs: seq<Event>, d: Dom): seq<nat>
    requires ValidRun(w, evs)
  {
    if evs == [] then []
    else
      var before := evs[..|evs| - 1];
      Joined(w, before, d) + Joins(w, Reached(w, before), evs[|evs| - 1], d)
  }

  ghost function Left(w: World, evs: seq<Event>, d: Dom): seq<nat>
    requires ValidRun(w, evs)
  {
    if evs == [] then []
    else
      var before := evs[..|evs| - 1];
      Left(w, before, d) + Leaves(w, Reached(w, before), evs[|evs| - 1], d)
  }

  /** With unrestricted affinity a dispatch takes the head of a queue. */
  lemma TakesHead(w: World, s: State, c: nat)
    requires ValidWorld(w) && WellFormed(w, s) && Unrestricted(w) && c < w.cfg.nrCpus
    ensures Source(w, s, c).Some? ==> Source(w, s, c).value.1 == 0
  {
    var src := Source(w, s, c);
    if src.Some? {
      assert c in w.masks[Dsq(s, src.value.0)[0].task];
    }
  }

  lemma HeadAndTail(q: seq<Entry>)
    requires q != []
    ensures q[..0] + q[0 + 1..] == q[1..]
    ensures Ids(q) == Ids([q[0]]) + Ids(q[1..])
    ensures [] + [q[0]] == [q[0]]
  {
  }

  /** A dispatch on an empty local queue moves the head of queue `d` there, or leaves `d` alone. */
  lemma HeadLeaves(w: World, s: State, c: nat, d: Dom) returns (taken: bool)
    requires ValidWorld(w) && WellFormed(w, s) && Unrestricted(w) && c < w.cfg.nrCpus && s.local[c] == []
    ensures var r := DispatchStep(w, s, c);
            if taken then Dsq(s, d) != [] && Dsq(r, d) == Dsq(s, d)[1..] && r.local[c] == [Dsq(s, d)[0]]
            else Dsq(r, d) == Dsq(s, d)
  {
    TakesHead(w, s, c);
    var src := Source(w, s, c);
    taken := src.Some? && src.value.0 == d;
    if src.Some? {
      FetchedQueues(w, s, c, src.value.0, 0);
      assert taken || d == Other(src.value.0);
      assert [] + [Dsq(s, src.value.0)[0]] == [Dsq(s, src.value.0)[0]];
    }
  }

  lemma DispatchOrder(w: World, s: State, c: nat, d: Dom)
    requires ValidWorld(w) && Neat(w, s) && Unrestricted(w) && Enabled(w, s, Dispatch(c))
    ensures Ids(Dsq(s, d)) == Leaves(w, s, Dispatch(c), d) + Ids(Dsq(Step(w, s, Dispatch(c)), d))
  {
    var taken := HeadLeaves(w, s, c, d);
    if taken {
      HeadAndTail(Dsq(s, d));
    }
  }

  lemma EnqueueOrder(w: World, s: State, p: nat, d: Dom)
    requires ValidWorld(w) && WellFormed(w, s) && p < |w.masks|
    ensures Ids(Dsq(s, d)) + (if DomOf(s, p) == d then [p] else []) == Ids(Dsq(EnqueueStep(w, s, p), d))
  {
    EnqueueQueues(w, s, p);
    if DomOf(s, p) == d {
      var e := Entry(p, Slice(w.cfg, d));
      assert Ids(Dsq(s, d) + [e]) == Ids(Dsq(s, d)) + [p];
    } else {
      assert d == Other(DomOf(s, p));
    }
  }

  lemma StepOrder(w: World, s: State, ev: Event, d: Dom)
    requires ValidWorld(w) && Neat(w, s) && Unrestricted(w) && Enabled(w, s, ev)
    ensures Ids(Dsq(s, d)) + Joins(w, s, ev, d) == Leaves(w, s, ev, d) + Ids(Dsq(Step(w, s, ev), d))
  {
    if ev.Enqueue? {
      EnqueueOrder(w, s, ev.p, d);
    } else if ev.Dispatch? {
      DispatchOrder(w, s, ev.c, d);
    } else {
      assert Dsq(Step(w, s, ev), d) == Dsq(s, d);
    }
  }

  /** First in, first out: over any run, what joined queue `d`, in order, is what left it, in order,
      followed by what is still queued. */
  lemma {:induction false} FirstInFirstOut(w: World, evs: seq<Event>, d: Dom)
    requires ValidRun(w, evs) && Unrestricted(w)
    ensures Joined(w, evs, d) == Left(w, evs, d) + Ids(Dsq(Reached(w, evs), d))
  {
    if evs != [] {
      var before, ev := evs[..|evs| - 1], evs[|evs| - 1];
      LastStep(w, evs);
      FirstInFirstOut(w, before, d);
      RunOrderly(w, before);
      var s := Reached(w, before);
      StepOrder(w, s, ev, d);
      Splice(Left(w, before, d), Ids(Dsq(s, d)), Joins(w, s, ev, d), Leaves(w, s, ev, d), Ids(Dsq(Reached(w, evs), d)));
    }
  }

  lemma Splice(left: seq<nat>, q: seq<nat>, joins: seq<nat>, leaves: seq<nat>, q': seq<nat>)
    requires q + joins == leaves + q'
    ensures left + q + joins == left + leaves + q'
  {
    assert left + q + joins == left + (q + joins);
    assert left + leaves + q' == left + (leaves + q');
  }

  // ---------------------------------------------------------------- kicked CPUs among other calls

  /** The CPUs of domain `d` that dispatched after the first `k` calls. */
  ghost function DispatchedSince(w: World, evs: seq<Event>, k: nat, d: Dom): set<nat>
    requires ValidRun(w, evs)
  {
    if |evs| <= k then {}
    else
      var before, ev := evs[..|evs| - 1], evs[|evs| - 1];
      DispatchedSince(w, before, k, d) + if ev.Dispatch? && DomOfCpu(w.cfg, ev.c) == d then {ev.c} else {}
  }

  /** A dispatch on a CPU of `d` takes a task off its queue unless that is empty. */
  lemma OwnQueueServed(w: World, s: State, c: nat, d: Dom)
    requires ValidWorld(w) && Neat(w, s) && Unrestricted(w) && Enabled(w, s, Dispatch(c))
    requires DomOfCpu(w.cfg, c) == d && Dsq(s, d) != []
    ensures |Leaves(w, s, Dispatch(c), d)| >= 1
  {
    assert c in w.masks[Dsq(s, d)[0].task];
    assert Source(w, s, c) == Some((d, 0));
    FetchedQueues(w, s, c, d, 0);
    DispatchOrder(w, s, c, d);
  }

  lemma {:induction false} JoinedGrows(w: World, evs: seq<Event>, k: nat, d: Dom)
    requires ValidRun(w, evs) && k <= |evs|
    ensures ValidRun(w, evs[..k]) && Joined(w, evs[..k], d) <= Joined(w, evs, d)
    decreases |evs|
  {
    if k < |evs| {
      var before := evs[..|evs| - 1];
      LastStep(w, evs);
      JoinedGrows(w, before, k, d);
      assert before[..k] == evs[..k];
    } else {
      assert evs[..k] == evs;
    }
  }

  /** All tasks queued after `k` calls have left, or one for each CPU that has dispatched since. */
  ghost predicate LeftEnough(w: World, evs: seq<Event>, k: nat, d: Dom)
    requires ValidRun(w, evs) && k <= |evs| && ValidRun(w, evs[..k])
  {
    || |Left(w, evs, d)| >= |Joined(w, evs[..k], d)|
    || |Left(w, evs, d)| >= |Left(w, evs[..k], d)| + |DispatchedSince(w, evs, k, d)|
  }

  lemma {:induction false} DispatchesServe(w: World, evs: seq<Event>, k: nat, d: Dom)
    requires ValidRun(w, evs) && Unrestricted(w) && k <= |evs|
    ensures ValidRun(w, evs[..k]) && LeftEnough(w, evs, k, d)
    decreases |evs|
  {
    PrefixRun(w, evs, k);
    if k == |evs| {
      assert evs[..k] == evs;
    } else {
      var before, ev := evs[..|evs| - 1], evs[|evs| - 1];
      LastStep(w, evs);
      DispatchesServe(w, before, k, d);
      assert before[..k] == evs[..k];
      if ev.Dispatch? && DomOfCpu(w.cfg, ev.c) == d {
        RunOrderly(w, before);
        var s := Reached(w, before);
        if Dsq(s, d) == [] {
          FirstInFirstOut(w, before, d);
          JoinedGrows(w, before, k, d);
        } else {
          OwnQueueServed(w, s, ev.c, d);
        }
      }
    }
  }

  /** Whatever happens in between: once as many CPUs of domain `d` have dispatched as its queue held
      tasks after `k` calls, all of these have left, first in first out. */
  lemma EnoughDispatchersServe(w: World, evs: seq<Event>, k: nat, d: Dom)
    requires ValidRun(w, evs) && Unrestricted(w) && k <= |evs| && ValidRun(w, evs[..k])
    requires |DispatchedSince(w, evs, k, d)| >= |Dsq(Reached(w, evs[..k]), d)|
    ensures Left(w, evs[..k], d) + Ids(Dsq(Reached(w, evs[..k]), d)) <= Left(w, evs, d)
  {
    DispatchesServe(w, evs, k, d);
    FirstInFirstOut(w, evs[..k], d);
    FirstInFirstOut(w, evs, d);
    JoinedGrows(w, evs, k, d);
  }

  /** The kicks serve every queued task: if domain `d` has an idle CPU after `k` calls and each CPU then
      under a kick has dispatched since, in any order and among any other calls, then every task
      that was queued at that time has left the queue. */
  lemma KicksServeWhoeverWaited(w: World, evs: seq<Event>, k: nat, d: Dom)
    requires ValidRun(w, evs) && Unrestricted(w) && k <= |evs| && ValidRun(w, evs[..k])
    requires HasIdle(w.cfg, Reached(w, evs[..k]).idle, d)
    requires KickedIn(w.cfg, Reached(w, evs[..k]).kicked, d) <= DispatchedSince(w, evs, k, d)
    ensures Left(w, evs[..k], d) + Ids(Dsq(Reached(w, evs[..k]), d)) <= Left(w, evs, d)
  {
    NoLostWakeup(w, evs[..k]);
    Subset(KickedIn(w.cfg, Reached(w, evs[..k]).kicked, d), DispatchedSince(w, evs, k, d));
    EnoughDispatchersServe(w, evs, k, d);
  }

  lemma Subset(a: set<nat>, b: set<nat>)
    requires a <= b
    ensures |a| <= |b|
  {
    assert b == a + (b - a);
  }

  /** A kicked CPU can always dispatch. */
  lemma KickedMayDispatch(w: World, evs: seq<Event>, c: nat)
    requires ValidRun(w, evs) && c < w.cfg.nrCpus && Reached(w, evs).kicked[c]
    ensures Enabled(w, Reached(w, evs), Dispatch(c))
  {
    RunTidy(w, evs);
    RunOrderly(w, evs);
  }

  function Dispatches(cs: seq<nat>): (r: seq<Event>)
    ensures |r| == |cs| && forall i :: 0 <= i < |cs| ==> r[i] == Dispatch(cs[i])
  {
    seq(|cs|, i requires 0 <= i < |cs| => Dispatch(cs[i]))
  }

  ghost predicate AllKicked(kicked: seq<bool>, cs: seq<nat>) {
    && (forall i :: 0 <= i < |cs| ==> cs[i] < |kicked| && kicked[cs[i]])
    && forall i, j :: 0 <= i < j < |cs| ==> cs[i] != cs[j]
  }

  /** One kicked CPU of `d` dispatches: the other kicks stay and the queue gets shorter, if it can. */
  lemma OneDispatch(w: World, evs: seq<Event>, c: nat, d: Dom)
    requires ValidRun(w, evs) && Unrestricted(w) && c < w.cfg.nrCpus && Reached(w, evs).kicked[c]
    requires DomOfCpu(w.cfg, c) == d
    ensures ValidRun(w, evs + [Dispatch(c)])
    ensures var s, r := Reached(w, evs), Reached(w, evs + [Dispatch(c)]);
            r.kicked == s.kicked[c := false] && |Dsq(r, d)| == if Dsq(s, d) == [] then 0 else |Dsq(s, d)| - 1
  {
    KickedMayDispatch(w, evs, c);
    assert (evs + [Dispatch(c)])[..|evs + [Dispatch(c)]| - 1] == evs;
    DispatchShortens(w, Reached(w, evs), c);
  }

  lemma DispatchShortens(w: World, s: State, c: nat)
    requires ValidWorld(w) && WellFormed(w, s) && Unrestricted(w) && c < w.cfg.nrCpus
    ensures var r, d := DispatchStep(w, s, c), DomOfCpu(w.cfg, c);
            r.kicked == s.kicked[c := false] && |Dsq(r, d)| == if Dsq(s, d) == [] then 0 else |Dsq(s, d)| - 1
  {
    var d := DomOfCpu(w.cfg, c);
    if Dsq(s, d) != [] {
      assert c in w.masks[Dsq(s, d)[0].task];
      assert Source(w, s, c) == Some((d, 0));
    }
    if Source(w, s, c).Some? {
      FetchedQueues(w, s, c, Source(w, s, c).value.0, Source(w, s, c).value.1);
    } else {
      MissedQueues(w, s, c);
    }
  }

  lemma LaterDispatches(evs: seq<Event>, cs: seq<nat>)
    requires cs != []
    ensures evs + [Dispatch(cs[0])] + Dispatches(cs[1..]) == evs + Dispatches(cs)
  {
    assert Dispatches(cs) == [Dispatch(cs[0])] + Dispatches(cs[1..]);
  }

  /** With no other calls in between, dispatches of as many kicked CPUs as there are queued tasks are
      possible and empty the queue. */
  lemma {:induction false} EnoughDispatches(w: World, evs: seq<Event>, cs: seq<nat>, d: Dom)
    requires ValidRun(w, evs) && Unrestricted(w) && AllKicked(Reached(w, evs).kicked, cs)
    requires forall i :: 0 <= i < |cs| ==> DomOfCpu(w.cfg, cs[i]) == d
    requires |Dsq(Reached(w, evs), d)| <= |cs|
    ensures ValidRun(w, evs + Dispatches(cs)) && Dsq(Reached(w, evs + Dispatches(cs)), d) == []
    decreases |cs|
  {
    if cs == [] {
      assert evs + Dispatches(cs) == evs;
    } else {
      OneDispatch(w, evs, cs[0], d);
      EnoughDispatches(w, evs + [Dispatch(cs[0])], cs[1..], d);
      LaterDispatches(evs, cs);
    }
  }

  function SetOf(cs: seq<nat>): set<nat> {
    set c | c in cs
  }

  lemma {:induction false} Enumeration(cs: seq<nat>)
    requires forall i, j :: 0 <= i < j < |cs| ==> cs[i] != cs[j]
    ensures |SetOf(cs)| == |cs|
  {
    if cs != [] {
      var n := |cs| - 1;
      Enumeration(cs[..n]);
      assert SetOf(cs) == SetOf(cs[..n]) + {cs[n]};
      assert cs[n] !in SetOf(cs[..n]);
    }
  }

  /** From any reachable state with an idle CPU in `d`: whatever the order in which the kicked CPUs of
      `d` answer, their dispatches are possible and empty the queue of `d`. */
  lemma KicksDrainTheQueue(w: World, evs: seq<Event>, d: Dom, cs: seq<nat>)
    requires ValidRun(w, evs) && Unrestricted(w)
    requires HasIdle(w.cfg, Reached(w, evs).idle, d)
    requires forall i, j :: 0 <= i < j < |cs| ==> cs[i] != cs[j]
    requires SetOf(cs) == KickedIn(w.cfg, Reached(w, evs).kicked, d)
    ensures ValidRun(w, evs + Dispatches(cs)) && Dsq(Reached(w, evs + Dispatches(cs)), d) == []
  {
    NoLostWakeup(w, evs);
    Enumeration(cs);
    assert Awake(w, Reached(w, evs), d) by { assert d == Big || d == Little; }
    forall i | 0 <= i < |cs| ensures cs[i] in KickedIn(w.cfg, Reached(w, evs).kicked, d) {
      assert cs[i] in SetOf(cs);
    }
    EnoughDispatches(w, evs, cs, d);
  }

  // ---------------------------------------------------------------- restricted affinity

  /** Some entry of the queue may run on CPU `c`. */
  ghost predicate SomeAllowed(masks: seq<set<int>>, q: seq<Entry>, c: nat)
    requires QueueOk(|masks|, q)
  {
    exists i :: 0 <= i < |q| && c in masks[q[i].task]
  }

  /** `q'` and the local queue after entry `i` left: it may run on `c`, the ones before it may not. */
  ghost predicate TakenAt(masks: seq<set<int>>, q: seq<Entry>, q': seq<Entry>, local: seq<Entry>, c: nat, i: int)
    requires QueueOk(|masks|, q)
  {
    && 0 <= i < |q| && q' == q[..i] + q[i + 1..] && local == [q[i]]
    && c in masks[q[i].task] && forall k :: 0 <= k < i ==> c !in masks[q[k].task]
  }

  /** Dispatch serves its own queue first and the other one only when it is not strict. */
  ghost predicate Serves(w: World, s: State, c: nat, d: Dom)
    requires ValidWorld(w) && WellFormed(w, s)
  {
    SomeAllowed(w.masks, Dsq(s, d), c)
    && (d == DomOfCpu(w.cfg, c) || (!w.cfg.strict && !SomeAllowed(w.masks, Dsq(s, DomOfCpu(w.cfg, c)), c)))
  }

  lemma FirstAllowedExists(w: World, q: seq<Entry>, c: nat)
    requires QueueOk(|w.masks|, q)
    ensures FirstAllowed(w, q, c, 0) >= 0 <==> SomeAllowed(w.masks, q, c)
  {
  }

  lemma SourceServes(w: World, s: State, c: nat, d: Dom)
    requires ValidWorld(w) && WellFormed(w, s) && c < w.cfg.nrCpus
    ensures Serves(w, s, c, d) <==> Source(w, s, c).Some? && Source(w, s, c).value.0 == d
    ensures Serves(w, s, c, d) ==> Source(w, s, c).value.1 == FirstAllowed(w, Dsq(s, d), c, 0)
  {
    FirstAllowedExists(w, s.big, c);
    FirstAllowedExists(w, s.little, c);
  }

  lemma ServedFirst(w: World, s: State, c: nat, d: Dom, i: nat)
    requires ValidWorld(w) && WellFormed(w, s) && c < w.cfg.nrCpus && s.local[c] == []
    requires i < |Dsq(s, d)| && i == FirstAllowed(w, Dsq(s, d), c, 0)
    ensures TakenAt(w.masks, Dsq(s, d), Dsq(Fetched(w, s, c, d, i), d), Fetched(w, s, c, d, i).local[c], c, i)
  {
    FetchedQueues(w, s, c, d, i);
    assert [] + [Dsq(s, d)[i]] == [Dsq(s, d)[i]];
  }

  /** Whatever the masks: a dispatch takes from the CPU's own queue if something there may run on it,
      else, unless strict, from the other one; it takes the first such entry, and the tasks that stay
      keep their order. A queue from which nothing is taken does not change. */
  lemma OvertakenOnlyWhereForbidden(w: World, s: State, c: nat, d: Dom)
    requires ValidWorld(w) && Neat(w, s) && Enabled(w, s, Dispatch(c))
    ensures var q, q', local := Dsq(s, d), Dsq(DispatchStep(w, s, c), d), DispatchStep(w, s, c).local[c];
            if Serves(w, s, c, d) then exists i :: TakenAt(w.masks, q, q', local, c, i) else q' == q
  {
    SourceServes(w, s, c, d);
    var src := Source(w, s, c);
    if Serves(w, s, c, d) {
      ServedFirst(w, s, c, d, src.value.1);
    } else if src.Some? {
      FetchedQueues(w, s, c, src.value.0, src.value.1);
      assert d == Other(src.value.0);
    }
  }
}
