/**
 Affinity on two CPUs: whatever the masks inside a pair of CPUs that share tasks with no other CPU of
 their domain, no wakeup is lost there. Three CPUs are the fewest on which overlapping masks fail.
 */
module SchedPairs {
  import opened Wrappers
  import opened Domains
  import opened SchedModel
  import opened SchedPartition
  import opened SchedWakeup

  /** Within domain `d`, a task that may use CPU `a` or `b` may use no third CPU; `a` and `b` may be one. */
  ghost predicate Isolated(w: World, d: Dom, a: nat, b: nat)
    requires ValidWorld(w)
  {
    && a <= b < w.cfg.nrCpus && DomOfCpu(w.cfg, a) == DomOfCpu(w.cfg, b) == d
    && forall p, c :: 0 <= p < |w.masks| && 0 <= c < w.cfg.nrCpus && (a in w.masks[p] || b in w.masks[p]) ==>
                        DomOfCpu(w.cfg, c) == d && c in w.masks[p] ==> c == a || c == b
  }

  ghost predicate NoneFor(masks: seq<set<int>>, q: seq<Entry>, c: nat)
    requires QueueOk(|masks|, q)
  {
    forall i :: 0 <= i < |q| ==> c !in masks[q[i].task]
  }

  /** Entry `i` is the only one for CPU `b` and the first one for CPU `a`. */
  ghost predicate TurnOf(masks: seq<set<int>>, q: seq<Entry>, a: nat, b: nat, i: int)
    requires QueueOk(|masks|, q)
  {
    && 0 <= i < |q| && a in masks[q[i].task]
    && (forall k :: 0 <= k < |q| && k != i ==> b !in masks[q[k].task])
    && forall k :: 0 <= k < i ==> a !in masks[q[k].task]
  }

  /** If `a` is idle nothing waits for it; if `b` is, nothing waits for it or the kicked `a` will take it. */
  ghost predicate PairServed(masks: seq<set<int>>, q: seq<Entry>, idle: seq<bool>, kicked: seq<bool>, a: nat, b: nat)
    requires QueueOk(|masks|, q) && a < |idle| == |kicked| && b < |idle|
  {
    && (idle[a] ==> NoneFor(masks, q, a))
    && (idle[b] ==> NoneFor(masks, q, b) || (kicked[a] && !idle[a] && exists i :: TurnOf(masks, q, a, b, i)))
  }

  // ---------------------------------------------------------------- one queue

  lemma PushOne(masks: seq<set<int>>, q: seq<Entry>, e: Entry, a: nat, b: nat, i: int)
    requires QueueOk(|masks|, q + [e]) && QueueOk(|masks|, q) && e.task < |masks|
    requires TurnOf(masks, q, a, b, i) && b !in masks[e.task]
    ensures TurnOf(masks, q + [e], a, b, i)
  {
  }

  lemma PushFirst(masks: seq<set<int>>, q: seq<Entry>, e: Entry, a: nat, b: nat)
    requires QueueOk(|masks|, q + [e]) && QueueOk(|masks|, q) && e.task < |masks|
    requires NoneFor(masks, q, a) && NoneFor(masks, q, b)
    requires a in masks[e.task]
    ensures TurnOf(masks, q + [e], a, b, |q|)
  {
  }

  /** What remains after entry `j` left. */
  lemma Pop(masks: seq<set<int>>, q: seq<Entry>, j: nat, a: nat, b: nat, i: int)
    requires QueueOk(|masks|, q) && j < |q| && TurnOf(masks, q, a, b, i)
    ensures var q' := q[..j] + q[j + 1..];
            if j == i then NoneFor(masks, q', b) else TurnOf(masks, q', a, b, if j < i then i - 1 else i)
  {
  }

  lemma PopNone(masks: seq<set<int>>, q: seq<Entry>, j: nat, c: nat)
    requires QueueOk(|masks|, q) && j < |q| && NoneFor(masks, q, c)
    ensures NoneFor(masks, q[..j] + q[j + 1..], c)
  {
  }

  // ---------------------------------------------------------------- one call

  ghost predicate Kept(w: World, s: State, d: Dom, a: nat, b: nat)
    requires ValidWorld(w) && WellFormed(w, s) && a < w.cfg.nrCpus && b < w.cfg.nrCpus
  {
    PairServed(w.masks, Dsq(s, d), s.idle, s.kicked, a, b)
  }

  /** Whom the scan for task `p` finds, as far as the pair is concerned. */
  lemma PairScan(w: World, s: State, d: Dom, a: nat, b: nat, p: nat) returns (c: int)
    requires ValidWorld(w) && WellFormed(w, s) && Isolated(w, d, a, b) && p < |w.masks|
    ensures c == FirstIdle(w, s.idle, p, d, 0) && (c >= 0 ==> c < w.cfg.nrCpus && s.idle[c])
    ensures a in w.masks[p] && s.idle[a] ==> c == a
    ensures b in w.masks[p] && s.idle[b] && c != b ==> c == a && a in w.masks[p] && s.idle[a]
  {
    c := FirstIdle(w, s.idle, p, d, 0);
    assert a in w.masks[p] && s.idle[a] ==> Claimable(w, s.idle, p, d, a);
    assert b in w.masks[p] && s.idle[b] ==> Claimable(w, s.idle, p, d, b);
  }

  lemma EnqueueKeeps(w: World, s: State, d: Dom, a: nat, b: nat, p: nat)
    requires ValidWorld(w) && Neat(w, s) && Isolated(w, d, a, b) && Kept(w, s, d, a, b)
    requires p < |w.masks| && DomOf(s, p) == d
    ensures Kept(w, EnqueueStep(w, s, p), d, a, b)
  {
    var c := PairScan(w, s, d, a, b, p);
    var q, e := Dsq(s, d), Entry(p, Slice(w.cfg, d));
    var r := EnqueueStep(w, s, p);
    EnqueueQueues(w, s, p);
    assert Dsq(r, d) == q + [e];
    if r.idle[b] {
      if b in w.masks[p] {
        assert c == a;
        PushFirst(w.masks, q, e, a, b);
      } else if !NoneFor(w.masks, q, b) {
        var i :| TurnOf(w.masks, q, a, b, i);
        PushOne(w.masks, q, e, a, b, i);
      }
    }
  }

  lemma FetchedKeeps(w: World, s: State, d: Dom, a: nat, b: nat, k: nat, j: nat)
    requires ValidWorld(w) && Neat(w, s) && Isolated(w, d, a, b) && Kept(w, s, d, a, b)
    requires k < w.cfg.nrCpus && j < |Dsq(s, d)| && k in w.masks[Dsq(s, d)[j].task]
    requires k == a ==> j == FirstAllowed(w, Dsq(s, d), a, 0)
    ensures Kept(w, Fetched(w, s, k, d, j), d, a, b)
  {
    var q := Dsq(s, d);
    FetchedQueues(w, s, k, d, j);
    if s.idle[a] {
      PopNone(w.masks, q, j, a);
    }
    if s.idle[b] {
      if NoneFor(w.masks, q, b) {
        PopNone(w.masks, q, j, b);
      } else {
        var i :| TurnOf(w.masks, q, a, b, i);
        Pop(w.masks, q, j, a, b, i);
      }
    }
  }

  lemma MissKeeps(w: World, s: State, d: Dom, a: nat, b: nat, k: nat)
    requires ValidWorld(w) && Neat(w, s) && Isolated(w, d, a, b) && Kept(w, s, d, a, b)
    requires k < w.cfg.nrCpus && Source(w, s, k).None?
    ensures Kept(w, DispatchStep(w, s, k), d, a, b)
  {
    MissedQueues(w, s, k);
    assert k == a ==> NoneFor(w.masks, Dsq(s, d), a);
    assert k == b ==> NoneFor(w.masks, Dsq(s, d), b);
  }

  /** A dispatch that takes from the other domain's queue found nothing for it in its own. */
  lemma StealKeeps(w: World, s: State, d: Dom, a: nat, b: nat, k: nat, j: nat)
    requires ValidWorld(w) && Neat(w, s) && Isolated(w, d, a, b) && Kept(w, s, d, a, b)
    requires k < w.cfg.nrCpus && j < |Dsq(s, Other(d))| && (k == a ==> NoneFor(w.masks, Dsq(s, d), a))
    ensures Kept(w, Fetched(w, s, k, Other(d), j), d, a, b)
  {
    FetchedQueues(w, s, k, Other(d), j);
  }

  lemma DispatchKeeps(w: World, s: State, d: Dom, a: nat, b: nat, k: nat)
    requires ValidWorld(w) && Neat(w, s) && Isolated(w, d, a, b) && Kept(w, s, d, a, b) && k < w.cfg.nrCpus
    ensures Kept(w, DispatchStep(w, s, k), d, a, b)
  {
    var src := Source(w, s, k);
    if src.None? {
      MissKeeps(w, s, d, a, b, k);
    } else if src.value.0 == d {
      FetchedKeeps(w, s, d, a, b, k, src.value.1);
    } else {
      assert k == a ==> FirstAllowed(w, Dsq(s, d), a, 0) == -1;
      StealKeeps(w, s, d, a, b, k, src.value.1);
    }
  }

  lemma EnqueueElsewhereKeeps(w: World, s: State, d: Dom, a: nat, b: nat, p: nat)
    requires ValidWorld(w) && Neat(w, s) && Isolated(w, d, a, b) && Kept(w, s, d, a, b)
    requires p < |w.masks| && DomOf(s, p) != d
    ensures Kept(w, EnqueueStep(w, s, p), d, a, b)
  {
    EnqueueQueues(w, s, p);
    assert d == Other(DomOf(s, p));
  }

  lemma StepKeeps(w: World, s: State, d: Dom, a: nat, b: nat, ev: Event)
    requires ValidWorld(w) && Neat(w, s) && Isolated(w, d, a, b) && Kept(w, s, d, a, b) && Enabled(w, s, ev)
    ensures Kept(w, Step(w, s, ev), d, a, b)
  {
    if ev.Enqueue? {
      if DomOf(s, ev.p) == d {
        EnqueueKeeps(w, s, d, a, b, ev.p);
      } else {
        EnqueueElsewhereKeeps(w, s, d, a, b, ev.p);
      }
    } else if ev.Dispatch? {
      DispatchKeeps(w, s, d, a, b, ev.c);
    } else {
      QuietServes(w, s, ev);
    }
  }

  lemma {:induction false} PairKept(w: World, evs: seq<Event>, d: Dom, a: nat, b: nat)
    requires ValidRun(w, evs) && Isolated(w, d, a, b)
    ensures Kept(w, Reached(w, evs), d, a, b)
  {
    if evs != [] {
      var before := evs[..|evs| - 1];
      LastStep(w, evs);
      PairKept(w, before, d, a, b);
      RunOrderly(w, before);
      StepKeeps(w, Reached(w, before), d, a, b, evs[|evs| - 1]);
    }
  }

  /** No wakeup is lost on an isolated pair, over every run and with any masks inside it: without a kick
      on its way to `a`, neither CPU of the pair is idle beside a task of `d` that it may run. */
  lemma NoLostWakeupInPairs(w: World, evs: seq<Event>, d: Dom, a: nat, b: nat, c: nat, i: nat)
    requires ValidRun(w, evs) && Isolated(w, d, a, b) && !Reached(w, evs).kicked[a]
    requires (c == a || c == b) && Reached(w, evs).idle[c] && i < |Dsq(Reached(w, evs), d)|
    ensures c !in w.masks[Dsq(Reached(w, evs), d)[i].task]
  {
    PairKept(w, evs, d, a, b);
  }

  /** No domain has a third CPU. */
  ghost predicate AtMostTwo(w: World)
    requires ValidWorld(w)
  {
    forall a, b, c :: 0 <= a < b < c < w.cfg.nrCpus ==>
                        !(DomOfCpu(w.cfg, a) == DomOfCpu(w.cfg, b) == DomOfCpu(w.cfg, c))
  }

  /** So with at most two CPUs in each domain no masks at all can strand a task in its own domain. */
  lemma TwoCpusSuffice(w: World, evs: seq<Event>, c: nat, i: nat)
    requires ValidRun(w, evs) && AtMostTwo(w) && c < w.cfg.nrCpus && Reached(w, evs).idle[c]
    requires forall k :: 0 <= k < w.cfg.nrCpus ==> !Reached(w, evs).kicked[k]
    requires i < |Dsq(Reached(w, evs), DomOfCpu(w.cfg, c))|
    ensures c !in w.masks[Dsq(Reached(w, evs), DomOfCpu(w.cfg, c))[i].task]
  {
    var d := DomOfCpu(w.cfg, c);
    var a, b := PairOf(w, d, c);
    NoLostWakeupInPairs(w, evs, d, a, b, c, i);
  }

  /** The CPUs of the domain of `c`. */
  lemma PairOf(w: World, d: Dom, c: nat) returns (a: nat, b: nat)
    requires ValidWorld(w) && AtMostTwo(w) && c < w.cfg.nrCpus && DomOfCpu(w.cfg, c) == d
    ensures Isolated(w, d, a, b) && (c == a || c == b)
  {
    a, b := c, c;
    if k :| 0 <= k < w.cfg.nrCpus && k != c && DomOfCpu(w.cfg, k) == d {
      a, b := if k < c then k else c, if k < c then c else k;
    }
  }
}
