/**
 The imperative scheduler under whole histories: one call takes the object where the transition system
 goes, so replaying any valid history ends in the state that the theorems about runs speak of.
 */
module Replay {
  import opened SchedModel
  import opened BlsScheduler

  /** One event: a callback, or one of the two kernel moves that call nothing. */
  method Call(s: Scheduler, ev: Event)
    requires s.Valid() && Enabled(s.w, s.View(), ev)
    modifies s, s.idle, s.stats
    ensures s.idle == old(s.idle) && s.stats == old(s.stats)
    ensures s.Valid() && s.View() == Step(s.w, old(s.View()), ev)
  {
    match ev
    case InitTask(p, comm, ok) =>
      var enomem := s.InitTask(p, comm, ok);
    case Arrive(p) =>
      s.pending, s.runnable := s.pending + {p}, s.runnable + {p};
    case SelectCpu(p, prev) =>
      var cpu := s.SelectCpu(p, prev);
    case Enqueue(p) => s.EnqueueTask(p);
    case Dispatch(c) => s.Dispatch(c);
    case Running(c, now) => s.RunningOn(c, now);
    case Stopping(c, runnable, now) => s.StoppingOn(c, runnable, now);
    case LeaveIdle(c) =>
      s.idle[c] := false;
      assert s.idle[..] == old(s.idle[..])[c := false];
  }

  /** A fresh scheduler under a whole history. */
  method Run(w: World, evs: seq<Event>) returns (s: Scheduler)
    requires ValidRun(w, evs)
    ensures fresh(s) && s.Valid() && s.w == w && s.View() == Reached(w, evs)
  {
    s := new Scheduler(w);
    var i := 0;
    while i < |evs|
      invariant 0 <= i <= |evs| && fresh(s) && fresh(s.idle) && fresh(s.stats)
      invariant s.Valid() && s.w == w
      invariant ValidRun(w, evs[..i]) && s.View() == Reached(w, evs[..i])
    {
      PrefixRun(w, evs, i + 1);
      LastStep(w, evs[..i + 1]);
      assert evs[..i + 1][..i] == evs[..i];
      Call(s, evs[i]);
      i := i + 1;
    }
    assert evs[..i] == evs;
  }
}
