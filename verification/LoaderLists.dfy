/**
 CPU lists in the loader (src/bls.c): `parse_cpulist` over `strtol`, the domain assignment of
 `main`, and the way from the harness's rendering to the domain of every CPU.
 */
module LoaderLists {
  import opened Wrappers
  import opened Domains
  import opened Text
  import opened CpuLists

  // ---------------------------------------------------------------- strtol

  function SkipSpace(p: string): (r: string)
    ensures |r| <= |p|
  {
    if p != "" && IsSpace(p[0]) then SkipSpace(p[1..]) else p
  }

  /** `strtol(p, &end, 10)`: value and the text at `end`; without digits `end` is `p` itself. Saturation at
      LONG_MIN and LONG_MAX is not needed: every caller rejects such values as it rejects the exact ones. */
  function StrToL(p: string): (r: (int, string))
    ensures |r.1| <= |p|
    ensures |r.1| == |p| ==> r.1 == p
  {
    var t := SkipSpace(p);
    var signed := t != "" && (t[0] == '-' || t[0] == '+');
    var u := if signed then t[1..] else t;
    var n := DigitRun(u);
    if n == 0 then (0, p)
    else ((if signed && t[0] == '-' then -(Val(u[..n]) as int) else Val(u[..n])), u[n..])
  }

  // ---------------------------------------------------------------- parse_cpulist

  /** One `a` or `a-b`, range-checked; `None` is one of the loader's exits. */
  function NextRun(p: string): (r: Option<(Run, string)>)
    ensures r.Some? ==> |r.value.1| < |p| && r.value.0.first <= r.value.0.last < MAX_CPUS
  {
    var (a, p1) := StrToL(p);
    if |p1| == |p| then None
    else
      var dash := p1 != "" && p1[0] == '-';
      var (b, p2) := if dash then StrToL(p1[1..]) else (a, p1);
      if dash && |p2| == |p1| - 1 then None
      else if a < 0 || b >= MAX_CPUS || b < a then None
      else Some((Run(a, b), p2))
  }

  /** The runs of a whole list; a trailing comma is accepted. */
  function ListRuns(p: string): Option<seq<Run>>
    decreases |p|
  {
    if p == "" then Some([])
    else
      var r := NextRun(p);
      if r.None? then None
      else
        var (run, q) := r.value;
        if q == "" then Some([run])
        else if q[0] != ',' then None
        else
          var rest := ListRuns(q[1..]);
          if rest.None? then None else Some([run] + rest.value)
  }

  predicate Covers(runs: seq<Run>, c: nat) {
    exists i :: 0 <= i < |runs| && runs[i].first <= c <= runs[i].last
  }

  /** `dom` with every CPU of `runs` set to `d`. */
  ghost predicate Marked(was: seq<Dom>, now: seq<Dom>, runs: seq<Run>, d: Dom) {
    |now| == |was| && forall c :: 0 <= c < |was| ==> now[c] == if Covers(runs, c) then d else was[c]
  }

  method MarkRun(dom: array<Dom>, run: Run, d: Dom)
    requires run.first <= run.last < dom.Length
    modifies dom
    ensures forall c :: 0 <= c < dom.Length ==> dom[c] == if run.first <= c <= run.last then d else old(dom[c])
  {
    for c := run.first to run.last + 1
      invariant forall k :: 0 <= k < dom.Length ==> dom[k] == if run.first <= k < c then d else old(dom[k])
    {
      dom[c] := d;
    }
  }

  lemma CoversSnoc(runs: seq<Run>, run: Run, c: nat)
    ensures Covers(runs + [run], c) <==> Covers(runs, c) || run.first <= c <= run.last
  {
    var all := runs + [run];
    if run.first <= c <= run.last {
      assert all[|runs|] == run;
    }
    if Covers(runs, c) {
      var i :| 0 <= i < |runs| && runs[i].first <= c <= runs[i].last;
      assert all[i] == runs[i];
    }
  }

  lemma MarkedMore(was: seq<Dom>, mid: seq<Dom>, now: seq<Dom>, done: seq<Run>, run: Run, d: Dom)
    requires Marked(was, mid, done, d) && |now| == |was|
    requires forall c :: 0 <= c < |was| ==> now[c] == if run.first <= c <= run.last then d else mid[c]
    ensures Marked(was, now, done + [run], d)
  {
    forall c | 0 <= c < |was| ensures now[c] == if Covers(done + [run], c) then d else was[c] {
      CoversSnoc(done, run, c);
    }
  }

  /** The text left to read after the runs `done`. */
  ghost predicate Reading(s: string, done: seq<Run>, p: string) {
    ListRuns(s) == if ListRuns(p).None? then None else Some(done + ListRuns(p).value)
  }

  lemma ReadingOn(s: string, done: seq<Run>, p: string, run: Run, q: string)
    requires Reading(s, done, p) && p != "" && NextRun(p) == Some((run, q))
    ensures q == "" ==> Reading(s, done + [run], "")
    ensures q != "" && q[0] == ',' ==> Reading(s, done + [run], q[1..])
    ensures q != "" && q[0] != ',' ==> ListRuns(s).None?
  {
    if q == "" {
      assert done + [run] == done + [run] + [];
    } else if q[0] == ',' && ListRuns(q[1..]).Some? {
      assert done + ([run] + ListRuns(q[1..]).value) == done + [run] + ListRuns(q[1..]).value;
    }
  }

  /** `parse_cpulist`: an error is an exit of the loader. */
  method ParseCpuList(dom: array<Dom>, s: string, d: Dom) returns (r: Result<(), string>)
    requires dom.Length == MAX_CPUS
    modifies dom
    ensures r.Ok? <==> ListRuns(s).Some?
    ensures r.Ok? ==> Marked(old(dom[..]), dom[..], ListRuns(s).value, d)
  {
    var p := s;
    ghost var done: seq<Run> := [];
    assert Reading(s, done, p) by {
      if ListRuns(p).Some? {
        assert [] + ListRuns(p).value == ListRuns(p).value;
      }
    }
    while p != ""
      invariant Reading(s, done, p)
      invariant Marked(old(dom[..]), dom[..], done, d)
      decreases |p|
    {
      var next := NextRun(p);
      if next.None? {
        return Err("bad cpu list, bad cpu range or cpu list out of range");
      }
      var (run, q) := next.value;
      ghost var mid := dom[..];
      MarkRun(dom, run, d);
      MarkedMore(old(dom[..]), mid, dom[..], done, run, d);
      ReadingOn(s, done, p, run, q);
      done := done + [run];
      if q == "" {
        p := q;
      } else if q[0] == ',' {
        p := q[1..];
      } else {
        return Err("unexpected character in cpu list");
      }
    }
    assert done + [] == done;
    return Ok(());
  }

  // ---------------------------------------------------------------- the domain map

  /** The domain assignment of `main`: halves by default, all BIG with `--flat`, else what the lists say. */
  method AssignDomains(nr: nat, flat: bool, bigList: Option<string>, littleList: Option<string>)
    returns (r: Result<seq<Dom>, string>)
    requires 1 <= nr <= MAX_CPUS
    ensures r.Ok? ==> |r.value| == MAX_CPUS
    ensures flat ==> r.Ok? && forall c :: 0 <= c < nr ==> r.value[c] == Big
    ensures !flat && bigList.None? && littleList.None? ==>
              r.Ok? && forall c :: 0 <= c < nr ==> r.value[c] == if c < nr / 2 then Big else Little
    ensures !flat && (bigList.Some? || littleList.Some?) ==>
              (r.Ok? <==> (bigList.Some? ==> ListRuns(bigList.value).Some?)
                          && (littleList.Some? ==> ListRuns(littleList.value).Some?))
    ensures !flat && (bigList.Some? || littleList.Some?) && r.Ok? ==>
              forall c :: 0 <= c < nr ==> r.value[c] == DomainByLists(bigList, littleList, c)
  {
    var dom := new Dom[MAX_CPUS](_ => Big);
    for i := 0 to nr
      invariant forall c :: 0 <= c < i ==> dom[c] == if c < nr / 2 then Big else Little
    {
      dom[i] := if i < nr / 2 then Big else Little;
    }
    if flat {
      for i := 0 to nr
        invariant forall c :: 0 <= c < i ==> dom[c] == Big
      {
        dom[i] := Big;
      }
    } else if bigList.Some? || littleList.Some? {
      for i := 0 to nr
        invariant forall c :: 0 <= c < i ==> dom[c] == if littleList.Some? then Big else Little
      {
        dom[i] := if littleList.Some? then Big else Little;
      }
      if bigList.Some? {
        var e := ParseCpuList(dom, bigList.value, Big);
        if e.Err? { return Err(e.error); }
      }
      if littleList.Some? {
        var e := ParseCpuList(dom, littleList.value, Little);
        if e.Err? { return Err(e.error); }
      }
    }
    return Ok(dom[..]);
  }

  predicate Lists(list: Option<string>, c: nat) {
    list.Some? && ListRuns(list.value).Some? && Covers(ListRuns(list.value).value, c)
  }

  /** LITTLE if the little list names the CPU, else BIG if the big list does, else the list's complement. */
  function DomainByLists(bigList: Option<string>, littleList: Option<string>, c: nat): Dom {
    if Lists(littleList, c) then Little
    else if Lists(bigList, c) then Big
    else if littleList.Some? then Big
    else Little
  }

  // ---------------------------------------------------------------- from the harness to the loader

  /** Without leading blanks or a sign `strtol` reads the leading digits. */
  lemma PlainNumber(p: string)
    requires p != "" && IsDigit(p[0]) && DigitRun(p) > 0
    ensures StrToL(p) == (Val(p[..DigitRun(p)]) as int, p[DigitRun(p)..])
  {
    assert !IsSpace(p[0]) && p[0] != '-' && p[0] != '+';
  }

  lemma ReadsNumber(n: nat, rest: string)
    requires rest != "" ==> !IsDigit(rest[0])
    ensures StrToL(Dec(n) + rest) == (n as int, rest)
  {
    DecIsDecimal(n);
    var d, p := Dec(n), Dec(n) + rest;
    assert IsDigit(d[0]) && p[0] == d[0];
    DigitRunOf(d, rest);
    assert p[..|d|] == d && p[|d|..] == rest;
    PlainNumber(p);
  }

  lemma NextRunIs(p: string, a: nat, p1: string, b: nat, p2: string)
    requires StrToL(p) == (a as int, p1) && |p1| < |p| && p1 != "" && p1[0] == '-'
    requires StrToL(p1[1..]) == (b as int, p2) && |p2| < |p1| - 1 && a <= b < MAX_CPUS
    ensures NextRun(p) == Some((Run(a, b), p2))
  {
  }

  lemma ReadsRange(r: Run, rest: string)
    requires r.first < r.last < MAX_CPUS && (rest != "" ==> rest[0] == ',')
    ensures NextRun(RunText(r) + rest) == Some((r, rest))
  {
    var a, b := Dec(r.first), Dec(r.last);
    DecIsDecimal(r.first);
    DecIsDecimal(r.last);
    var tail := "-" + (b + rest);
    assert tail[1..] == b + rest;
    assert RunText(r) + rest == a + tail;
    ReadsNumber(r.first, tail);
    ReadsNumber(r.last, rest);
    NextRunIs(a + tail, r.first, tail, r.last, rest);
  }

  lemma ReadsRun(r: Run, rest: string)
    requires r.first <= r.last < MAX_CPUS && (rest != "" ==> rest[0] == ',')
    ensures NextRun(RunText(r) + rest) == Some((r, rest))
  {
    DecIsDecimal(r.first);
    DecIsDecimal(r.last);
    if r.first == r.last {
      ReadsNumber(r.first, rest);
    } else {
      ReadsRange(r, rest);
    }
  }

  lemma ReadsLastRun(r: Run)
    requires r.first <= r.last < MAX_CPUS
    ensures ListRuns(RunText(r)) == Some([r])
  {
    DecIsDecimal(r.first);
    ReadsRun(r, "");
    assert RunText(r) + "" == RunText(r);
  }

  lemma ListStep(p: string, r: Run, q: string)
    requires NextRun(p) == Some((r, q)) && q != "" && q[0] == ',' && ListRuns(q[1..]).Some?
    ensures ListRuns(p) == Some([r] + ListRuns(q[1..]).value)
  {
    assert |NextRun(p).value.1| < |p|;
  }

  lemma ReadsRunThen(r: Run, more: string)
    requires r.first <= r.last < MAX_CPUS && ListRuns(more).Some?
    ensures ListRuns(RunText(r) + [','] + more) == Some([r] + ListRuns(more).value)
  {
    var rest := [','] + more;
    ReadsRun(r, rest);
    assert RunText(r) + [','] + more == RunText(r) + rest;
    assert rest[1..] == more;
    ListStep(RunText(r) + rest, r, rest);
  }

  lemma JoinsFirst(runs: seq<Run>)
    requires |runs| > 1
    ensures Join(Texts(runs)) == RunText(runs[0]) + [','] + Join(Texts(runs[1..]))
  {
    assert Texts(runs)[1..] == Texts(runs[1..]);
  }

  lemma {:induction false} ReadsRuns(runs: seq<Run>)
    requires forall i :: 0 <= i < |runs| ==> runs[i].first <= runs[i].last < MAX_CPUS
    ensures ListRuns(Join(Texts(runs))) == Some(runs)
  {
    if |runs| == 1 {
      ReadsLastRun(runs[0]);
      assert [runs[0]] == runs;
    } else if runs != [] {
      ReadsRuns(runs[1..]);
      var more := Join(Texts(runs[1..]));
      ReadsRunThen(runs[0], more);
      JoinsFirst(runs);
      assert [runs[0]] + runs[1..] == runs;
    }
  }

  lemma {:induction false} RangeMembers(a: int, b: int, c: int)
    ensures c in Range(a, b) <==> a <= c < b
    decreases b - a
  {
    if a < b {
      RangeMembers(a + 1, b, c);
    }
  }

  lemma {:induction false} CoversIsExpand(runs: seq<Run>, c: nat)
    ensures Covers(runs, c) <==> c in Expand(runs)
  {
    if runs != [] {
      CoversIsExpand(runs[1..], c);
      RangeMembers(runs[0].first, runs[0].last + 1, c);
      if Covers(runs[1..], c) {
        var i :| 0 <= i < |runs[1..]| && runs[1..][i].first <= c <= runs[1..][i].last;
        assert runs[i + 1] == runs[1..][i];
      }
      if Covers(runs, c) && !(runs[0].first <= c <= runs[0].last) {
        var i :| 0 <= i < |runs| && runs[i].first <= c <= runs[i].last;
        assert runs[1..][i - 1] == runs[i];
      }
    }
  }

  lemma {:induction false} RunsBounded(start: nat, prev: nat, rest: seq<nat>)
    requires start <= prev < MAX_CPUS && forall i :: 0 <= i < |rest| ==> rest[i] < MAX_CPUS
    ensures forall i :: 0 <= i < |RunsFrom(start, prev, rest)| ==> RunsFrom(start, prev, rest)[i].last < MAX_CPUS
    decreases |rest|
  {
    if rest != [] {
      RunsBounded(if rest[0] == prev + 1 then start else rest[0], rest[0], rest[1..]);
    }
  }

  /** What Python renders, C reads: `--big cpulist(cpus)` names exactly the CPUs of `cpus`, also when
      the list is empty. */
  lemma RenderedReachesLoader(cpus: seq<nat>, c: nat)
    requires forall i :: 0 <= i < |cpus| ==> cpus[i] < MAX_CPUS
    ensures ListRuns(Rendered(cpus)).Some?
    ensures Lists(Some(Rendered(cpus)), c) <==> c in cpus
  {
    if cpus != [] {
      RunsBounded(cpus[0], cpus[0], cpus[1..]);
    }
    ReadsRuns(Runs(cpus));
    RunsExpand(cpus);
    CoversIsExpand(Runs(cpus), c);
  }

  /** With one list only, the CPUs that it does not name belong to the other domain. */
  lemma OneListReachesLoader(cpus: seq<nat>, c: nat)
    requires forall i :: 0 <= i < |cpus| ==> cpus[i] < MAX_CPUS
    ensures DomainByLists(Some(Rendered(cpus)), None, c) == (if c in cpus then Big else Little)
    ensures DomainByLists(None, Some(Rendered(cpus)), c) == (if c in cpus then Little else Big)
  {
    RenderedReachesLoader(cpus, c);
  }

  /** With both lists, whatever they share or leave out, the little one decides. */
  lemma TwoListsReachLoader(big: seq<nat>, little: seq<nat>, c: nat)
    requires forall i :: 0 <= i < |big| ==> big[i] < MAX_CPUS
    requires forall i :: 0 <= i < |little| ==> little[i] < MAX_CPUS
    ensures DomainByLists(Some(Rendered(big)), Some(Rendered(little)), c) == (if c in little then Little else Big)
  {
    RenderedReachesLoader(big, c);
    RenderedReachesLoader(little, c);
  }

  /** End to end: with both lists rendered by the harness, the loader marks a CPU LITTLE exactly if it is in
      the little list; so for a partition, BIG exactly if it is in the big list. */
  lemma PartitionReachesLoader(nr: nat, big: seq<nat>, little: seq<nat>, c: nat)
    requires 1 <= nr <= MAX_CPUS && c < nr
    requires forall i :: 0 <= i < |big| ==> big[i] < nr
    requires forall i :: 0 <= i < |little| ==> little[i] < nr
    requires forall k :: 0 <= k < nr ==> (k in big <==> k !in little)
    ensures ListRuns(Rendered(big)).Some? && ListRuns(Rendered(little)).Some?
    ensures DomainByLists(Some(Rendered(big)), Some(Rendered(little)), c) == Big <==> c in big
  {
    RenderedReachesLoader(big, c);
    RenderedReachesLoader(little, c);
  }
}
