/**
 What the command rules do to a task, end to end: from the two comma lists on the loader's command
 line to the domain and the pin in the task's storage, and from there over whole runs.
 */
module SchedBirth {
  import opened Wrappers
  import opened Domains
  import opened CommRules
  import opened CommTable
  import opened SchedModel
  import SchedClassifier

  /** Some token of the list, of fewer than 16 characters, is a prefix of the name. */
  ghost predicate Listed(list: Option<string>, name: string) {
    exists i :: 0 <= i < |TokensOf(list)| && Hits(TokensOf(list)[i], name)
  }

  predicate Hits(tok: string, name: string) {
    |tok| < COMM_LEN && tok <= name
  }

  /** The world's table was built from the two lists, which are C strings. */
  ghost predicate BuiltFrom(w: World, bigComm: Option<string>, littleComm: Option<string>) {
    && (bigComm.Some? ==> NoNul(bigComm.value)) && (littleComm.Some? ==> NoNul(littleComm.value))
    && |TokensOf(bigComm)| + |TokensOf(littleComm)| <= MAX_COMM_RULES
    && w.cfg.rules == TableOf(bigComm, littleComm)
  }

  /** Domain and pin of a new task. A big token wins over every little one. */
  ghost function Expected(mode: Mode, inBig: bool, inLittle: bool): (Dom, bool) {
    match mode
    case Flat => (Big, false)
    case Adaptive => (Little, false)
    case Comm => (if inBig then Big else Little, inBig || inLittle)
    case Hybrid => (if inBig then Big else Little, inBig || inLittle)
  }

  lemma {:induction false} FirstPrefixHits(rules: seq<(string, Dom)>, name: string, d: Dom)
    requires forall i :: 0 <= i < |rules| ==> rules[i].1 == d
    ensures FirstPrefix(rules, name) ==
            if exists i :: 0 <= i < |rules| && Hits(rules[i].0, name) then Some(d) else None
  {
    if rules != [] {
      FirstPrefixHits(rules[1..], name, d);
      assert forall i :: 0 < i < |rules| ==> rules[i] == rules[1..][i - 1];
    }
  }

  lemma {:induction false} FirstPrefixConcat(a: seq<(string, Dom)>, b: seq<(string, Dom)>, name: string)
    ensures FirstPrefix(a + b, name)
            == if FirstPrefix(a, name).Some? then FirstPrefix(a, name) else FirstPrefix(b, name)
    decreases |a|
  {
    if a == [] {
      assert a + b == b;
    } else {
      assert (a + b)[0] == a[0] && (a + b)[1..] == a[1..] + b;
      FirstPrefixConcat(a[1..], b, name);
    }
  }

  lemma OneList(list: Option<string>, d: Dom, name: string)
    ensures FirstPrefix(RulesOf(list, d), name) == if Listed(list, name) then Some(d) else None
  {
    FirstPrefixHits(RulesOf(list, d), name, d);
  }

  /** The lists decide: big first, then little. */
  lemma ListsDecide(bigComm: Option<string>, littleComm: Option<string>, name: string)
    ensures FirstPrefix(Rules(bigComm, littleComm), name) ==
            if Listed(bigComm, name) then Some(Big) else if Listed(littleComm, name) then Some(Little) else None
  {
    FirstPrefixConcat(RulesOf(bigComm, Big), RulesOf(littleComm, Little), name);
    OneList(bigComm, Big, name);
    OneList(littleComm, Little, name);
  }

  /** A task initialised under a name that could be read gets the domain and the pin that the lists say;
      with a name that could not be read, those of an unlisted one. */
  lemma TaskIsBorn(w: World, s: State, p: nat, comm: Option<CommBuf>, name: string,
                   bigComm: Option<string>, littleComm: Option<string>)
    requires ValidWorld(w) && WellFormed(w, s) && BuiltFrom(w, bigComm, littleComm)
    requires Enabled(w, s, InitTask(p, comm, true)) && (comm.Some? ==> Holds(comm.value, name))
    ensures var tc := Step(w, s, InitTask(p, comm, true)).ctx[p];
            && tc.Some?
            && (tc.value.domain, tc.value.pinned)
               == Expected(w.cfg.mode, comm.Some? && Listed(bigComm, name), comm.Some? && Listed(littleComm, name))
            && tc.value.ewma == 0 && tc.value.startedAt == 0 && tc.value.ranBig == 0 && tc.value.ranLittle == 0
  {
    if comm.Some? {
      LookupIs(w, comm.value, name, bigComm, littleComm);
    }
  }

  lemma LookupIs(w: World, buf: CommBuf, name: string, bigComm: Option<string>, littleComm: Option<string>)
    requires ValidWorld(w) && BuiltFrom(w, bigComm, littleComm) && Holds(buf, name)
    ensures FirstMatch(w.cfg.rules, buf, 0) ==
            if Listed(bigComm, name) then Some(Big) else if Listed(littleComm, name) then Some(Little) else None
  {
    ClassifiesByFirstPrefix(bigComm, littleComm, buf, name);
    ListsDecide(bigComm, littleComm, name);
  }

  /** Out of memory: nothing changes. */
  lemma NoStorageNoChange(w: World, s: State, p: nat, comm: Option<CommBuf>)
    requires ValidWorld(w) && WellFormed(w, s) && Enabled(w, s, InitTask(p, comm, false))
    ensures Step(w, s, InitTask(p, comm, false)) == s
  {
  }

  // ---------------------------------------------------------------- over runs

  ghost predicate Stays(tc: Option<TaskCtx>, d: Dom, pin: bool) {
    tc.Some? && tc.value.domain == d && tc.value.pinned == pin
  }

  /** A call moves a task with storage only in the adaptive modes and only if it is not pinned. */
  lemma StepStays(w: World, s: State, ev: Event, p: nat, d: Dom, pin: bool)
    requires ValidWorld(w) && WellFormed(w, s) && Enabled(w, s, ev) && p < |w.masks| && Stays(s.ctx[p], d, pin)
    requires pin || w.cfg.mode == Flat || w.cfg.mode == Comm
    ensures Stays(Step(w, s, ev).ctx[p], d, pin)
  {
    SchedClassifier.StepCtx(w, s, ev, p);
  }

  lemma {:induction false} RunStays(w: World, evs: seq<Event>, k: nat, p: nat, d: Dom, pin: bool)
    requires ValidRun(w, evs) && k <= |evs| && ValidRun(w, evs[..k]) && p < |w.masks|
    requires Stays(Reached(w, evs[..k]).ctx[p], d, pin)
    requires pin || w.cfg.mode == Flat || w.cfg.mode == Comm
    ensures Stays(Reached(w, evs).ctx[p], d, pin)
    decreases |evs|
  {
    if k == |evs| {
      assert evs[..k] == evs;
    } else {
      var before := evs[..|evs| - 1];
      LastStep(w, evs);
      assert before[..k] == evs[..k];
      RunStays(w, before, k, p, d, pin);
      StepStays(w, Reached(w, before), evs[|evs| - 1], p, d, pin);
    }
  }

  lemma BornInRun(w: World, evs: seq<Event>, k: nat, p: nat, comm: Option<CommBuf>, name: string,
                  bigComm: Option<string>, littleComm: Option<string>) returns (d: Dom, pin: bool)
    requires ValidRun(w, evs) && BuiltFrom(w, bigComm, littleComm)
    requires k < |evs| && evs[k] == InitTask(p, comm, true) && (comm.Some? ==> Holds(comm.value, name))
    ensures ValidRun(w, evs[..k + 1]) && p < |w.masks| && Stays(Reached(w, evs[..k + 1]).ctx[p], d, pin)
    ensures (d, pin)
            == Expected(w.cfg.mode, comm.Some? && Listed(bigComm, name), comm.Some? && Listed(littleComm, name))
  {
    var (e, b) := Expected(w.cfg.mode, comm.Some? && Listed(bigComm, name), comm.Some? && Listed(littleComm, name));
    d, pin := e, b;
    PrefixRun(w, evs, k + 1);
    var born := evs[..k + 1];
    LastStep(w, born);
    assert born[..k] == evs[..k];
    TaskIsBorn(w, Reached(w, evs[..k]), p, comm, name, bigComm, littleComm);
  }

  /** Over every run: once initialised, a task that a list names is in that list's domain, pinned, after
      every later call in modes comm and hybrid; in modes flat and comm every task stays where it began. */
  lemma RuleHoldsForever(w: World, evs: seq<Event>, k: nat, p: nat, comm: Option<CommBuf>, name: string,
                         bigComm: Option<string>, littleComm: Option<string>)
    requires ValidRun(w, evs) && BuiltFrom(w, bigComm, littleComm)
    requires k < |evs| && evs[k] == InitTask(p, comm, true) && (comm.Some? ==> Holds(comm.value, name))
    requires var listed := comm.Some? && (Listed(bigComm, name) || Listed(littleComm, name));
             w.cfg.mode == Flat || w.cfg.mode == Comm || (w.cfg.mode == Hybrid && listed)
    ensures p < |w.masks|
    ensures var (d, pin) := Expected(w.cfg.mode, comm.Some? && Listed(bigComm, name),
                                     comm.Some? && Listed(littleComm, name));
            Stays(Reached(w, evs).ctx[p], d, pin)
  {
    var d, pin := BornInRun(w, evs, k, p, comm, name, bigComm, littleComm);
    RunStays(w, evs, k + 1, p, d, pin);
  }

  /** The other tasks move: in adaptive mode all, in hybrid mode those without a rule, by the new average
      of the slice that ends, compared with the threshold and with half of it. */
  lemma UnlistedTaskAdapts(w: World, s: State, ev: Event, p: nat)
    requires ValidWorld(w) && WellFormed(w, s) && Enabled(w, s, ev) && (w.cfg.mode == Adaptive || w.cfg.mode == Hybrid)
    requires SchedClassifier.EndsSlice(w, s, ev, p) && !s.ctx[p].value.pinned
    ensures var tc, t := s.ctx[p].value, w.cfg.threshNs;
            var e := (tc.ewma * 3 + (ev.now - tc.startedAt) % TWO64) % TWO64 / 4;
            var r := Step(w, s, ev).ctx[p];
            r.Some? && r.value.ewma == e
            && r.value.domain == if e > t then Big else if e < t / 2 then Little else tc.domain
  {
    SchedClassifier.StepCtx(w, s, ev, p);
  }
}
