/**
 The partition: which domain's CPU a task starts on, in strict and non-strict runs, although
 `bls_stopping` moves tasks between domains all the time.
 */
module SchedPartition {
  import opened Wrappers
  import opened Domains
  import opened SchedModel
  import opened SchedConservation

  /** An idle CPU has nothing and owes no dispatch. */
  ghost predicate IdleTidy(local: seq<seq<Entry>>, curr: seq<Option<nat>>, idle: seq<bool>, kicked: seq<bool>)
    requires |local| == |curr| == |idle| == |kicked|
  {
    forall c :: 0 <= c < |idle| && idle[c] ==> local[c] == [] && curr[c].None? && !kicked[c]
  }

  /** A local queue never holds two tasks. */
  ghost predicate AtMostOne(local: seq<seq<Entry>>) {
    forall c :: 0 <= c < |local| ==> |local[c]| <= 1
  }

  /** Every task of queue `q` has domain `d` now and carries that domain's slice. */
  ghost predicate FiledAs(cfg: Config, ctx: seq<Option<TaskCtx>>, q: seq<Entry>, d: Dom)
    requires QueueOk(|ctx|, q)
  {
    forall i :: 0 <= i < |q| ==> DomIn(ctx, q[i].task) == d && q[i].slice == Slice(cfg, d)
  }

  ghost predicate SlicedLocally(cfg: Config, ctx: seq<Option<TaskCtx>>, local: seq<seq<Entry>>)
    requires LocalOk(|ctx|, local)
  {
    forall c :: 0 <= c < |local| && local[c] != [] ==> local[c][0].slice == Slice(cfg, DomIn(ctx, local[c][0].task))
  }

  ghost predicate Neat(w: World, s: State) {
    && WellFormed(w, s)
    && IdleTidy(s.local, s.curr, s.idle, s.kicked) && AtMostOne(s.local)
    && FiledAs(w.cfg, s.ctx, s.big, Big) && FiledAs(w.cfg, s.ctx, s.little, Little)
    && SlicedLocally(w.cfg, s.ctx, s.local)
  }

  ghost predicate Orderly(w: World, s: State) {
    Neat(w, s) && Conserved(s)
  }

  lemma MoveNeat(w: World, s: State, d: Dom, i: nat, c: nat)
    requires Neat(w, s) && c < w.cfg.nrCpus && i < |Dsq(s, d)| && s.local[c] == [] && !s.idle[c]
    ensures Neat(w, MoveToLocal(w, s, d, i, c))
  {
    var q := Dsq(s, d);
    var q' := q[..i] + q[i + 1..];
    assert forall k :: 0 <= k < |q'| ==> q'[k] == if k < i then q[k] else q[k + 1];
  }

  lemma PlaceNeat(w: World, s: State, c: nat, e: Entry)
    requires Neat(w, s) && c < w.cfg.nrCpus && s.idle[c]
    requires e.task < |w.masks| && e.slice == Slice(w.cfg, DomOf(s, e.task))
    ensures Neat(w, PlaceOn(s, c, e))
  {
    var r := PlaceOn(s, c, e);
    assert r.local[c] == [e];
    assert forall k :: 0 <= k < |s.local| && k != c ==> r.local[k] == s.local[k];
  }

  lemma DispatchNeat(w: World, s: State, c: nat)
    requires ValidWorld(w) && Neat(w, s) && Enabled(w, s, Dispatch(c))
    ensures Neat(w, DispatchStep(w, s, c))
  {
    var src := Source(w, s, c);
    if src.Some? {
      var (d, i) := src.value;
      var st := if d == DomOfCpu(w.cfg, c) then s.stats.(localHit := s.stats.localHit + 1)
                else s.stats.(steal := s.stats.steal + 1);
      MoveNeat(w, s.(kicked := s.kicked[c := false], stats := st), d, i, c);
    }
  }

  lemma KickNeat(w: World, s: State, p: nat, d: Dom)
    requires ValidWorld(w) && Neat(w, s) && p < |w.masks|
    ensures Neat(w, Kick(w, s, p, d))
  {
  }

  lemma EnqueueNeat(w: World, s: State, p: nat)
    requires ValidWorld(w) && Neat(w, s) && Enabled(w, s, Enqueue(p))
    ensures Neat(w, EnqueueStep(w, s, p))
  {
    var d := DomOf(s, p);
    var s1 := s.(pending := s.pending - {p},
                 stats := if d == Little then s.stats.(enq := s.stats.enq + 1, dsqLittle := s.stats.dsqLittle + 1)
                          else s.stats.(enq := s.stats.enq + 1, dsqBig := s.stats.dsqBig + 1));
    KickNeat(w, WithDsq(s1, d, Dsq(s1, d) + [Entry(p, Slice(w.cfg, d))]), p, d);
  }

  lemma SelectNeat(w: World, s: State, p: nat, prev: int)
    requires ValidWorld(w) && Neat(w, s) && Enabled(w, s, SelectCpu(p, prev))
    ensures Neat(w, SelectStep(w, s, p, prev).0)
  {
    var d := DomOf(s, p);
    var e := Entry(p, Slice(w.cfg, d));
    var c := PickIdle(w, s.idle, p, d, prev);
    if c >= 0 {
      PlaceNeat(w, s, c, e);
    } else {
      var s1 := s.(stats := s.stats.(noIdle := s.stats.noIdle + 1));
      var c2 := if w.cfg.strict then -1 else PickIdle(w, s.idle, p, Other(d), -1);
      if c2 >= 0 {
        PlaceNeat(w, s1, c2, e);
      }
    }
  }

  /** Rewriting the storage of a task that waits in no queue leaves every queue filed. */
  lemma FiledElsewhere(w: World, s: State, r: State, p: nat)
    requires Neat(w, s) && WellFormed(w, r) && p < |s.ctx|
    requires forall d, i :: 0 <= i < |Dsq(s, d)| ==> Dsq(s, d)[i].task != p
    requires forall k, i :: 0 <= k < |s.local| && 0 <= i < |s.local[k]| ==> s.local[k][i].task != p
    requires r.big == s.big && r.little == s.little && r.local == s.local
    requires forall q :: 0 <= q < |s.ctx| && q != p ==> r.ctx[q] == s.ctx[q]
    ensures FiledAs(w.cfg, r.ctx, r.big, Big) && FiledAs(w.cfg, r.ctx, r.little, Little)
    ensures SlicedLocally(w.cfg, r.ctx, r.local)
  {
    assert Dsq(s, Big) == s.big && Dsq(s, Little) == s.little;
  }

  lemma InitNeat(w: World, s: State, ev: Event)
    requires ValidWorld(w) && Orderly(w, s) && ev.InitTask? && Enabled(w, s, ev)
    ensures Neat(w, Step(w, s, ev))
  {
    SleepsNowhere(s, ev.p);
    FiledElsewhere(w, s, Step(w, s, ev), ev.p);
  }

  lemma StoppingNeat(w: World, s: State, ev: Event)
    requires ValidWorld(w) && Orderly(w, s) && ev.Stopping? && Enabled(w, s, ev)
    ensures Neat(w, Step(w, s, ev))
  {
    RunsOnlyThere(s, ev.c);
    FiledElsewhere(w, s, Step(w, s, ev), s.curr[ev.c].value);
  }

  lemma StepNeat(w: World, s: State, ev: Event)
    requires ValidWorld(w) && Orderly(w, s) && Enabled(w, s, ev)
    ensures Neat(w, Step(w, s, ev))
  {
    if ev.InitTask? {
      InitNeat(w, s, ev);
    } else if ev.Stopping? {
      StoppingNeat(w, s, ev);
    } else if ev.SelectCpu? {
      SelectNeat(w, s, ev.p, ev.prev);
    } else if ev.Enqueue? {
      EnqueueNeat(w, s, ev.p);
    } else if ev.Dispatch? {
      DispatchNeat(w, s, ev.c);
    } else if ev.Running? {
      RunningNeat(w, s, ev.c, ev.now);
    }
  }

  lemma StepOrderly(w: World, s: State, ev: Event)
    requires ValidWorld(w) && Orderly(w, s) && Enabled(w, s, ev)
    ensures Orderly(w, Step(w, s, ev))
  {
    StepConserves(w, s, ev);
    StepNeat(w, s, ev);
  }

  lemma RunningNeat(w: World, s: State, c: nat, now: nat)
    requires ValidWorld(w) && Neat(w, s) && Enabled(w, s, Running(c, now))
    ensures Neat(w, Step(w, s, Running(c, now)))
  {
    var r := Step(w, s, Running(c, now));
    assert forall q :: 0 <= q < |s.ctx| ==> DomOf(r, q) == DomOf(s, q);
    assert r.local[c] == [];
    assert forall k :: 0 <= k < |s.local| && k != c ==> r.local[k] == s.local[k];
  }

  lemma {:induction false} RunOrderly(w: World, evs: seq<Event>)
    requires ValidRun(w, evs)
    ensures Orderly(w, Reached(w, evs))
  {
    TasksConserved(w, evs);
    if evs != [] {
      LastStep(w, evs);
      RunOrderly(w, evs[..|evs| - 1]);
      StepOrderly(w, Reached(w, evs[..|evs| - 1]), evs[|evs| - 1]);
    }
  }

  // ---------------------------------------------------------------- cross-domain placements

  /** CPUs whose local queue holds a task of the other domain. */
  ghost predicate AstrayAt(cfg: Config, ctx: seq<Option<TaskCtx>>, local: seq<seq<Entry>>, c: nat)
    requires |cfg.cpuDom| == MAX_CPUS && LocalOk(|ctx|, local) && c < |local|
  {
    local[c] != [] && DomIn(ctx, local[c][0].task) != DomOfCpu(cfg, c)
  }

  ghost function AstrayIn(cfg: Config, ctx: seq<Option<TaskCtx>>, local: seq<seq<Entry>>): set<nat>
    requires |cfg.cpuDom| == MAX_CPUS && LocalOk(|ctx|, local)
  {
    set c: nat | c < |local| && AstrayAt(cfg, ctx, local, c)
  }

  ghost function Astray(w: World, s: State): set<nat>
    requires ValidWorld(w) && WellFormed(w, s)
  {
    AstrayIn(w.cfg, s.ctx, s.local)
  }

  /** The call starts a task on a CPU of the other domain. */
  ghost predicate StartsAstray(w: World, s: State, ev: Event)
    requires ValidWorld(w) && WellFormed(w, s)
  {
    && ev.Running? && ev.c < w.cfg.nrCpus && s.local[ev.c] != []
    && DomOf(s, s.local[ev.c][0].task) != DomOfCpu(w.cfg, ev.c)
  }

  ghost function StartsAstrayIn(w: World, evs: seq<Event>): nat
    requires ValidRun(w, evs)
  {
    if evs == [] then 0
    else
      var before := evs[..|evs| - 1];
      StartsAstrayIn(w, before) + if StartsAstray(w, Reached(w, before), evs[|evs| - 1]) then 1 else 0
  }

  /** A task put on an empty local queue is astray or not; the others stay as they were. */
  lemma PushAstray(cfg: Config, ctx: seq<Option<TaskCtx>>, local: seq<seq<Entry>>, c: nat, e: Entry)
    requires |cfg.cpuDom| == MAX_CPUS && LocalOk(|ctx|, local) && c < |local| && local[c] == [] && e.task < |ctx|
    ensures LocalOk(|ctx|, local[c := [e]])
    ensures |AstrayIn(cfg, ctx, local[c := [e]])|
            == |AstrayIn(cfg, ctx, local)| + if DomIn(ctx, e.task) != DomOfCpu(cfg, c) then 1 else 0
  {
    var a, b := AstrayIn(cfg, ctx, local), AstrayIn(cfg, ctx, local[c := [e]]);
    forall k: nat | k < |local| && k != c
      ensures AstrayAt(cfg, ctx, local[c := [e]], k) <==> AstrayAt(cfg, ctx, local, k)
    {
    }
    assert b == if DomIn(ctx, e.task) != DomOfCpu(cfg, c) then a + {c} else a;
  }

  /** A change of task storage that no waiting task notices. */
  lemma SameAstray(cfg: Config, ctx: seq<Option<TaskCtx>>, ctx': seq<Option<TaskCtx>>, local: seq<seq<Entry>>)
    requires |cfg.cpuDom| == MAX_CPUS && |ctx| == |ctx'| && LocalOk(|ctx|, local)
    requires forall c :: 0 <= c < |local| && local[c] != [] ==>
                           DomIn(ctx', local[c][0].task) == DomIn(ctx, local[c][0].task)
    ensures AstrayIn(cfg, ctx', local) == AstrayIn(cfg, ctx, local)
  {
    forall c: nat | c < |local| ensures AstrayAt(cfg, ctx', local, c) <==> AstrayAt(cfg, ctx, local, c) {
    }
  }

  /** Where `bls_select_cpu` leaves the local queues, and whether it counted a steal. */
  lemma SelectLocal(w: World, s: State, p: nat, prev: int) returns (c: int)
    requires ValidWorld(w) && Neat(w, s) && Enabled(w, s, SelectCpu(p, prev))
    ensures var r := SelectStep(w, s, p, prev).0;
            && r.ctx == s.ctx && c < |s.local| && (p !in s.pending ==> (c < 0 <==> p in r.pending))
            && (c < 0 ==> r.local == s.local && r.stats.steal == s.stats.steal)
            && (c >= 0 ==>
                  && s.local[c] == [] && r.local == s.local[c := [Entry(p, Slice(w.cfg, DomOf(s, p)))]]
                  && r.stats.steal == s.stats.steal + if DomOf(s, p) != DomOfCpu(w.cfg, c) then 1 else 0)
  {
    var d := DomOf(s, p);
    c := PickIdle(w, s.idle, p, d, prev);
    if c < 0 && !w.cfg.strict {
      c := PickIdle(w, s.idle, p, Other(d), -1);
    }
    assert c >= 0 ==> s.local[c] + [Entry(p, Slice(w.cfg, d))] == [Entry(p, Slice(w.cfg, d))];
  }

  lemma SelectAstray(w: World, s: State, p: nat, prev: int)
    requires ValidWorld(w) && Neat(w, s) && Enabled(w, s, SelectCpu(p, prev))
    ensures var r := SelectStep(w, s, p, prev).0; |Astray(w, r)| + s.stats.steal == |Astray(w, s)| + r.stats.steal
  {
    var c := SelectLocal(w, s, p, prev);
    if c >= 0 {
      PushAstray(w.cfg, s.ctx, s.local, c, Entry(p, Slice(w.cfg, DomOf(s, p))));
    }
  }

  lemma DispatchLocal(w: World, s: State, c: nat)
    requires ValidWorld(w) && WellFormed(w, s) && c < w.cfg.nrCpus
    ensures var r := DispatchStep(w, s, c);
            && r.ctx == s.ctx
            && (Source(w, s, c).None? ==> r.local == s.local && r.stats.steal == s.stats.steal)
            && (Source(w, s, c).Some? ==>
                  var (d, i) := Source(w, s, c).value;
                  && r.local == s.local[c := s.local[c] + [Dsq(s, d)[i]]]
                  && r.stats.steal == s.stats.steal + if d == DomOfCpu(w.cfg, c) then 0 else 1)
  {
  }

  lemma DispatchAstray(w: World, s: State, c: nat)
    requires ValidWorld(w) && Neat(w, s) && Enabled(w, s, Dispatch(c))
    ensures var r := DispatchStep(w, s, c); |Astray(w, r)| + s.stats.steal == |Astray(w, s)| + r.stats.steal
  {
    DispatchLocal(w, s, c);
    var src := Source(w, s, c);
    if src.Some? {
      var (d, i) := src.value;
      var e := Dsq(s, d)[i];
      assert DomIn(s.ctx, e.task) == d && [] + [e] == [e];
      PushAstray(w.cfg, s.ctx, s.local, c, e);
    }
  }

  lemma RunningAstray(w: World, s: State, c: nat, now: nat)
    requires ValidWorld(w) && Neat(w, s) && Enabled(w, s, Running(c, now))
    ensures Astray(w, Step(w, s, Running(c, now))) == Astray(w, s) - {c}
    ensures c in Astray(w, s) <==> StartsAstray(w, s, Running(c, now))
  {
    var r := Step(w, s, Running(c, now));
    var local' := s.local[c := s.local[c][1..]];
    assert r.local == local' && local'[c] == [];
    SameAstray(w.cfg, s.ctx, r.ctx, local');
    forall k: nat | k < |s.local| && k != c
      ensures AstrayAt(w.cfg, s.ctx, local', k) <==> AstrayAt(w.cfg, s.ctx, s.local, k)
    {
    }
  }

  lemma QuietAstray(w: World, s: State, ev: Event)
    requires ValidWorld(w) && Orderly(w, s) && Enabled(w, s, ev)
    requires !ev.SelectCpu? && !ev.Dispatch? && !ev.Running?
    ensures |Astray(w, Step(w, s, ev))| == |Astray(w, s)| && Step(w, s, ev).stats.steal == s.stats.steal
  {
    var r := Step(w, s, ev);
    assert r.local == s.local;
    if ev.Stopping? {
      RunsOnlyThere(s, ev.c);
      SameAstray(w.cfg, s.ctx, r.ctx, s.local);
    } else if ev.InitTask? {
      SleepsNowhere(s, ev.p);
      SameAstray(w.cfg, s.ctx, r.ctx, s.local);
    }
  }

  lemma StepAstray(w: World, s: State, ev: Event)
    requires ValidWorld(w) && Orderly(w, s) && Enabled(w, s, ev)
    ensures var r := Step(w, s, ev);
            |Astray(w, r)| + (if StartsAstray(w, s, ev) then 1 else 0) + s.stats.steal == |Astray(w, s)| + r.stats.steal
  {
    if ev.SelectCpu? {
      SelectAstray(w, s, ev.p, ev.prev);
    } else if ev.Dispatch? {
      DispatchAstray(w, s, ev.c);
    } else if ev.Running? {
      RunningAstray(w, s, ev.c, ev.now);
    } else {
      QuietAstray(w, s, ev);
    }
  }

  /** The `cross_domain` counter is exact in every run, strict or not: it is the number of times a
      task started on the other domain's CPU plus the number about to. */
  lemma {:induction false} StealIsExact(w: World, evs: seq<Event>)
    requires ValidRun(w, evs)
    ensures Reached(w, evs).stats.steal == StartsAstrayIn(w, evs) + |Astray(w, Reached(w, evs))|
  {
    if evs == [] {
      assert Astray(w, Initial(w)) == {};
    } else {
      var before := evs[..|evs| - 1];
      LastStep(w, evs);
      StealIsExact(w, before);
      RunOrderly(w, before);
      StepAstray(w, Reached(w, before), evs[|evs| - 1]);
    }
  }

  lemma {:induction false} StrictNeverSteals(w: World, evs: seq<Event>)
    requires ValidRun(w, evs) && w.cfg.strict
    ensures Reached(w, evs).stats.steal == 0
  {
    if evs != [] {
      LastStep(w, evs);
      StrictNeverSteals(w, evs[..|evs| - 1]);
    }
  }

  /** Strict partition safety: in a strict run every task starts on a CPU of the domain it has at
      that moment, and the cross-domain counter never moves. */
  lemma StrictPartition(w: World, evs: seq<Event>, k: nat)
    requires ValidRun(w, evs) && w.cfg.strict
    requires k < |evs| && evs[k].Running?
    ensures Reached(w, evs).stats.steal == 0
    ensures ValidRun(w, evs[..k])
    ensures var s := Reached(w, evs[..k]);
            var c := evs[k].c;
            c < w.cfg.nrCpus && s.local[c] != [] && DomOf(s, s.local[c][0].task) == DomOfCpu(w.cfg, c)
  {
    StrictNeverSteals(w, evs);
    PrefixRun(w, evs, k + 1);
    LastStep(w, evs[..k + 1]);
    assert evs[..k + 1][..k] == evs[..k];
    StrictNeverSteals(w, evs[..k]);
    StealIsExact(w, evs[..k]);
    assert evs[k].c !in Astray(w, Reached(w, evs[..k]));
  }
}
