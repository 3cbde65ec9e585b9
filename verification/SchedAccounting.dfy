/**
 Run-time accounting: the millisecond counters and the per-task nanoseconds against the time that
 tasks really spent on CPUs, and what a clock that steps backwards does to both.
 */
module SchedAccounting {
  import opened Wrappers
  import opened Domains
  import opened SchedModel
  import opened SchedConservation
  import opened SchedPartition

  /** When the task now on CPU `c` started: the clock value of the latest `running` there. */
  ghost function StartOf(evs: seq<Event>, c: nat): nat {
    if evs == [] then 0
    else
      var ev := evs[|evs| - 1];
      if ev.Running? && ev.c == c then ev.now else StartOf(evs[..|evs| - 1], c)
  }

  /** Clock readings are positive u64 values and no slice ends before it began. */
  ghost predicate ClockSane(evs: seq<Event>) {
    evs == []
    || (var before, ev := evs[..|evs| - 1], evs[|evs| - 1];
        && ClockSane(before)
        && (ev.Running? ==> 0 < ev.now < TWO64)
        && (ev.Stopping? ==> StartOf(before, ev.c) <= ev.now < TWO64))
  }

  /** The call ends a slice of a task with storage on a CPU of domain `d`. */
  ghost predicate EndsOn(w: World, s: State, ev: Event, d: Dom)
    requires ValidWorld(w) && WellFormed(w, s) && Enabled(w, s, ev)
  {
    ev.Stopping? && s.ctx[s.curr[ev.c].value].Some? && DomOfCpu(w.cfg, ev.c) == d
  }

  /** Nanoseconds that tasks really spent on the CPUs of domain `d`. */
  ghost function TrueNs(w: World, evs: seq<Event>, d: Dom): int
    requires ValidRun(w, evs)
  {
    if evs == [] then 0
    else
      var before, ev := evs[..|evs| - 1], evs[|evs| - 1];
      TrueNs(w, before, d)
      + if EndsOn(w, Reached(w, before), ev, d) then ev.now - StartOf(before, ev.c) else 0
  }

  /** How many slices ended there. */
  ghost function StopsOn(w: World, evs: seq<Event>, d: Dom): nat
    requires ValidRun(w, evs)
  {
    if evs == [] then 0
    else
      var before, ev := evs[..|evs| - 1], evs[|evs| - 1];
      StopsOn(w, before, d) + if EndsOn(w, Reached(w, before), ev, d) then 1 else 0
  }

  function RunMs(st: Stats, d: Dom): nat {
    if d == Little then st.runLittleMs else st.runBigMs
  }

  function Ran(tc: Option<TaskCtx>, d: Dom): nat {
    if tc.None? then 0 else if d == Little then tc.value.ranLittle else tc.value.ranBig
  }

  /** The per-task nanoseconds of domain `d`, summed over all tasks. */
  function SumRan(ctx: seq<Option<TaskCtx>>, d: Dom): nat {
    if ctx == [] then 0 else SumRan(ctx[..|ctx| - 1], d) + Ran(ctx[|ctx| - 1], d)
  }

  lemma {:induction false} SumRanUpdate(ctx: seq<Option<TaskCtx>>, p: nat, tc: Option<TaskCtx>, d: Dom)
    requires p < |ctx|
    ensures SumRan(ctx[p := tc], d) == SumRan(ctx, d) - Ran(ctx[p], d) + Ran(tc, d)
    ensures Ran(ctx[p], d) <= SumRan(ctx, d)
  {
    var n := |ctx| - 1;
    if p == n {
      assert ctx[p := tc][..n] == ctx[..n];
    } else {
      assert ctx[p := tc][..n] == ctx[..n][p := tc];
      SumRanUpdate(ctx[..n], p, tc, d);
    }
  }

  /** `started_at` of every running task is when it started. */
  ghost predicate Timed(ctx: seq<Option<TaskCtx>>, curr: seq<Option<nat>>, evs: seq<Event>) {
    forall c :: 0 <= c < |curr| && curr[c].Some? && curr[c].value < |ctx| && ctx[curr[c].value].Some? ==>
                  ctx[curr[c].value].value.startedAt == StartOf(evs, c)
  }

  /** A counter of `ms` milliseconds and a sum of `ran` nanoseconds stand for `ns` true nanoseconds in
      `stops` slices. */
  predicate StandsFor(ms: nat, ran: nat, ns: int, stops: nat) {
    && NSEC_PER_MSEC * ms <= ns <= NSEC_PER_MSEC * ms + (NSEC_PER_MSEC - 1) * stops
    && (ns < TWO64 ==> ran == ns)
  }

  ghost predicate Accounts(w: World, evs: seq<Event>, d: Dom)
    requires ValidRun(w, evs)
  {
    var s := Reached(w, evs);
    StandsFor(RunMs(s.stats, d), SumRan(s.ctx, d), TrueNs(w, evs, d), StopsOn(w, evs, d))
  }

  /** u64 subtraction gives the elapsed time exactly when the clock did not step back. */
  lemma DeltaIsElapsed(now: nat, startedAt: nat)
    requires now < TWO64 && startedAt < TWO64
    ensures Delta(now, startedAt) == now - startedAt <==> startedAt <= now
    ensures now < startedAt ==> Delta(now, startedAt) == TWO64 - (startedAt - now)
  {
  }

  /** A step back of at most one millisecond adds some 18446744073708 ms to a counter at once. */
  lemma BackwardsClockJump(now: nat, startedAt: nat)
    requires now < startedAt < TWO64 && startedAt - now <= NSEC_PER_MSEC
    ensures 18_446_744_073_708 <= Delta(now, startedAt) / NSEC_PER_MSEC <= 18_446_744_073_709
  {
    DeltaIsElapsed(now, startedAt);
  }

  /** One more slice of `delta` nanoseconds on a task that had `had` of the `ran` nanoseconds. */
  lemma OneSlice(ms: nat, ran: nat, ns: int, stops: nat, had: nat, delta: nat)
    requires StandsFor(ms, ran, ns, stops) && had <= ran
    ensures StandsFor(ms + delta / NSEC_PER_MSEC, ran - had + (had + delta) % TWO64, ns + delta, stops + 1)
  {
    assert NSEC_PER_MSEC * (delta / NSEC_PER_MSEC) <= delta
           <= NSEC_PER_MSEC * (delta / NSEC_PER_MSEC) + (NSEC_PER_MSEC - 1);
    if ns + delta < TWO64 {
      assert had + delta < TWO64;
    }
  }

  /** What a call does to the counter and the sum of domain `d`. */
  lemma StepSums(w: World, s: State, ev: Event, d: Dom)
    requires ValidWorld(w) && WellFormed(w, s) && Enabled(w, s, ev)
    requires EndsOn(w, s, ev, d) ==> 0 < s.ctx[s.curr[ev.c].value].value.startedAt <= ev.now < TWO64
    ensures var r := Step(w, s, ev);
            if EndsOn(w, s, ev, d) then
              var tc := s.ctx[s.curr[ev.c].value];
              var delta := ev.now - tc.value.startedAt;
              && Ran(tc, d) <= SumRan(s.ctx, d)
              && RunMs(r.stats, d) == RunMs(s.stats, d) + delta / NSEC_PER_MSEC
              && SumRan(r.ctx, d) == SumRan(s.ctx, d) - Ran(tc, d) + (Ran(tc, d) + delta) % TWO64
            else
              RunMs(r.stats, d) == RunMs(s.stats, d) && SumRan(r.ctx, d) == SumRan(s.ctx, d)
  {
    match ev
    case InitTask(p, _, _) => SumRanUpdate(s.ctx, p, Step(w, s, ev).ctx[p], d);
    case Running(c, now) => SumRanUpdate(s.ctx, s.local[c][0].task, Step(w, s, ev).ctx[s.local[c][0].task], d);
    case Dispatch(c) => DispatchLocal(w, s, c);
    case Stopping(c, _, now) => StoppingSums(w, s, ev, d);
    case _ =>
  }

  lemma StoppingMs(w: World, s: State, ev: Event, d: Dom)
    requires ValidWorld(w) && WellFormed(w, s) && ev.Stopping? && Enabled(w, s, ev)
    requires EndsOn(w, s, ev, d) ==> 0 < s.ctx[s.curr[ev.c].value].value.startedAt <= ev.now < TWO64
    ensures RunMs(StoppingStep(w, s, ev.c, ev.runnable, ev.now).stats, d) == RunMs(s.stats, d)
              + if EndsOn(w, s, ev, d) then (ev.now - s.ctx[s.curr[ev.c].value].value.startedAt) / NSEC_PER_MSEC else 0
  {
    if EndsOn(w, s, ev, d) {
      DeltaIsElapsed(ev.now, s.ctx[s.curr[ev.c].value].value.startedAt);
    }
  }

  lemma StoppingSums(w: World, s: State, ev: Event, d: Dom)
    requires ValidWorld(w) && WellFormed(w, s) && ev.Stopping? && Enabled(w, s, ev)
    requires EndsOn(w, s, ev, d) ==> 0 < s.ctx[s.curr[ev.c].value].value.startedAt <= ev.now < TWO64
    ensures var r := StoppingStep(w, s, ev.c, ev.runnable, ev.now);
            if EndsOn(w, s, ev, d) then
              var tc := s.ctx[s.curr[ev.c].value];
              var delta := ev.now - tc.value.startedAt;
              && Ran(tc, d) <= SumRan(s.ctx, d)
              && RunMs(r.stats, d) == RunMs(s.stats, d) + delta / NSEC_PER_MSEC
              && SumRan(r.ctx, d) == SumRan(s.ctx, d) - Ran(tc, d) + (Ran(tc, d) + delta) % TWO64
            else
              RunMs(r.stats, d) == RunMs(s.stats, d) && SumRan(r.ctx, d) == SumRan(s.ctx, d)
  {
    var p := s.curr[ev.c].value;
    StoppingMs(w, s, ev, d);
    if s.ctx[p].Some? {
      var tc := s.ctx[p].value;
      SumRanUpdate(s.ctx, p, Some(StopCtx(w.cfg, tc, DomOfCpu(w.cfg, ev.c), ev.now)), d);
      if EndsOn(w, s, ev, d) {
        DeltaIsElapsed(ev.now, tc.startedAt);
      }
    }
  }

  lemma RunningTimed(w: World, s: State, before: seq<Event>, ev: Event)
    requires ValidWorld(w) && Orderly(w, s) && ev.Running? && Enabled(w, s, ev) && Timed(s.ctx, s.curr, before)
    ensures var r := Step(w, s, ev); Timed(r.ctx, r.curr, before + [ev])
  {
    var evs, r := before + [ev], Step(w, s, ev);
    assert evs[..|evs| - 1] == before && evs[|evs| - 1] == ev;
    StepConserves(w, s, ev);
    RunsOnlyThere(r, ev.c);
    var p := s.local[ev.c][0].task;
    forall c | 0 <= c < |r.curr| && r.curr[c].Some? && r.curr[c].value < |r.ctx| && r.ctx[r.curr[c].value].Some?
      ensures r.ctx[r.curr[c].value].value.startedAt == StartOf(evs, c)
    {
      if c != ev.c {
        assert r.curr[c] == s.curr[c] && r.curr[c] != Some(p);
      }
    }
  }

  lemma StoppingTimed(w: World, s: State, before: seq<Event>, ev: Event)
    requires ValidWorld(w) && Orderly(w, s) && ev.Stopping? && Enabled(w, s, ev) && Timed(s.ctx, s.curr, before)
    ensures var r := Step(w, s, ev); Timed(r.ctx, r.curr, before + [ev])
  {
    var evs, r := before + [ev], Step(w, s, ev);
    assert evs[..|evs| - 1] == before && evs[|evs| - 1] == ev;
    RunsOnlyThere(s, ev.c);
    forall c | 0 <= c < |r.curr| && r.curr[c].Some? && r.curr[c].value < |r.ctx| && r.ctx[r.curr[c].value].Some?
      ensures r.ctx[r.curr[c].value].value.startedAt == StartOf(evs, c)
    {
      assert r.curr[c] == s.curr[c] && r.curr[c] != s.curr[ev.c];
    }
  }

  lemma StepTimed(w: World, s: State, before: seq<Event>, ev: Event)
    requires ValidWorld(w) && Orderly(w, s) && Enabled(w, s, ev) && Timed(s.ctx, s.curr, before)
    ensures var r := Step(w, s, ev); Timed(r.ctx, r.curr, before + [ev])
  {
    var evs := before + [ev];
    assert evs[..|evs| - 1] == before && evs[|evs| - 1] == ev;
    if ev.Running? {
      RunningTimed(w, s, before, ev);
    } else if ev.Stopping? {
      StoppingTimed(w, s, before, ev);
    } else if ev.InitTask? {
      SleepsNowhere(s, ev.p);
    } else {
      assert Step(w, s, ev).curr == s.curr && Step(w, s, ev).ctx == s.ctx;
    }
  }

  /** Every task now running started at a positive time. */
  ghost predicate Started(curr: seq<Option<nat>>, evs: seq<Event>) {
    forall c :: 0 <= c < |curr| && curr[c].Some? ==> StartOf(evs, c) > 0
  }

  lemma StepStarted(w: World, s: State, before: seq<Event>, ev: Event)
    requires ValidWorld(w) && WellFormed(w, s) && Enabled(w, s, ev) && Started(s.curr, before)
    requires ev.Running? ==> ev.now > 0
    ensures Started(Step(w, s, ev).curr, before + [ev])
  {
    var evs := before + [ev];
    assert evs[..|evs| - 1] == before && evs[|evs| - 1] == ev;
    if !ev.Running? && !ev.Stopping? {
      assert Step(w, s, ev).curr == s.curr;
    }
  }

  lemma HistoryGrows(w: World, before: seq<Event>, ev: Event, d: Dom)
    requires ValidRun(w, before) && Enabled(w, Reached(w, before), ev) && ValidRun(w, before + [ev])
    ensures var ends := EndsOn(w, Reached(w, before), ev, d);
            && TrueNs(w, before + [ev], d)
               == TrueNs(w, before, d) + (if ends then ev.now - StartOf(before, ev.c) else 0)
            && StopsOn(w, before + [ev], d) == StopsOn(w, before, d) + (if ends then 1 else 0)
    ensures Reached(w, before + [ev]) == Step(w, Reached(w, before), ev)
  {
    var evs := before + [ev];
    assert evs[..|evs| - 1] == before && evs[|evs| - 1] == ev;
  }

  lemma StepStandsFor(w: World, s: State, ev: Event, d: Dom, ns: int, stops: nat)
    requires ValidWorld(w) && WellFormed(w, s) && Enabled(w, s, ev)
    requires EndsOn(w, s, ev, d) ==> 0 < s.ctx[s.curr[ev.c].value].value.startedAt <= ev.now < TWO64
    requires StandsFor(RunMs(s.stats, d), SumRan(s.ctx, d), ns, stops)
    ensures var r := Step(w, s, ev);
            if EndsOn(w, s, ev, d) then
              StandsFor(RunMs(r.stats, d), SumRan(r.ctx, d),
                        ns + ev.now - s.ctx[s.curr[ev.c].value].value.startedAt, stops + 1)
            else StandsFor(RunMs(r.stats, d), SumRan(r.ctx, d), ns, stops)
  {
    StepSums(w, s, ev, d);
    if EndsOn(w, s, ev, d) {
      var tc := s.ctx[s.curr[ev.c].value];
      OneSlice(RunMs(s.stats, d), SumRan(s.ctx, d), ns, stops, Ran(tc, d), ev.now - tc.value.startedAt);
    }
  }

  lemma StepAccounts(w: World, before: seq<Event>, ev: Event, d: Dom)
    requires ValidRun(w, before) && Enabled(w, Reached(w, before), ev) && ValidRun(w, before + [ev])
    requires Timed(Reached(w, before).ctx, Reached(w, before).curr, before) && Started(Reached(w, before).curr, before)
    requires ev.Stopping? ==> StartOf(before, ev.c) <= ev.now < TWO64
    requires Accounts(w, before, d)
    ensures Accounts(w, before + [ev], d)
  {
    HistoryGrows(w, before, ev, d);
    StepStandsFor(w, Reached(w, before), ev, d, TrueNs(w, before, d), StopsOn(w, before, d));
  }

  /** Over every run with a sane clock: each RUN_*_MS counter undercounts the true time by less than one
      millisecond per slice, and as long as the time fits 64 bits the per-task nanoseconds add up to it. */
  lemma {:induction false} RunTimeAccounted(w: World, evs: seq<Event>)
    requires ValidRun(w, evs) && ClockSane(evs)
    ensures Timed(Reached(w, evs).ctx, Reached(w, evs).curr, evs) && Started(Reached(w, evs).curr, evs)
    ensures Accounts(w, evs, Big) && Accounts(w, evs, Little)
  {
    if evs == [] {
      NothingRan(Initial(w).ctx);
    } else {
      var before, ev := evs[..|evs| - 1], evs[|evs| - 1];
      LastStep(w, evs);
      RunTimeAccounted(w, before);
      RunOrderly(w, before);
      assert evs == before + [ev];
      StepTimed(w, Reached(w, before), before, ev);
      StepStarted(w, Reached(w, before), before, ev);
      StepAccounts(w, before, ev, Big);
      StepAccounts(w, before, ev, Little);
    }
  }

  lemma {:induction false} NothingRan(ctx: seq<Option<TaskCtx>>)
    requires forall p :: 0 <= p < |ctx| ==> ctx[p].None?
    ensures SumRan(ctx, Big) == 0 && SumRan(ctx, Little) == 0
  {
    if ctx != [] {
      NothingRan(ctx[..|ctx| - 1]);
    }
  }
}
