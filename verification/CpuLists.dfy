/**
 CPU lists in the harness (scripts/bench.py): rendering by `cpulist`, parsing by `parse_cpulist`,
 and the round trip between them.
 */
module CpuLists {
  import opened Wrappers
  import opened Text
  import opened Sorting

  // ---------------------------------------------------------------- rendering

  /** A run of consecutive CPUs, both ends included. */
  datatype Run = Run(first: nat, last: nat)

  function Range(a: int, b: int): seq<int>
    decreases b - a
  {
    if a >= b then [] else [a] + Range(a + 1, b)
  }

  function Expand(runs: seq<Run>): seq<int> {
    if runs == [] then [] else Range(runs[0].first, runs[0].last + 1) + Expand(runs[1..])
  }

  function RunText(r: Run): string {
    if r.first == r.last then Dec(r.first) else Dec(r.first) + "-" + Dec(r.last)
  }

  /** `",".join(parts)`. */
  function Join(parts: seq<string>): string {
    if parts == [] then "" else if |parts| == 1 then parts[0] else parts[0] + [','] + Join(parts[1..])
  }

  function Texts(runs: seq<Run>): (r: seq<string>)
    ensures |r| == |runs| && forall i :: 0 <= i < |r| ==> r[i] == RunText(runs[i])
  {
    seq(|runs|, i requires 0 <= i < |runs| => RunText(runs[i]))
  }

  /** The runs of a list that goes on with `rest` after `start..prev`. */
  function RunsFrom(start: nat, prev: nat, rest: seq<nat>): (runs: seq<Run>)
    requires start <= prev
    ensures runs != [] && forall i :: 0 <= i < |runs| ==> runs[i].first <= runs[i].last
    decreases |rest|
  {
    if rest == [] then [Run(start, prev)]
    else if rest[0] == prev + 1 then RunsFrom(start, rest[0], rest[1..])
    else [Run(start, prev)] + RunsFrom(rest[0], rest[0], rest[1..])
  }

  function Runs(cpus: seq<nat>): seq<Run> {
    if cpus == [] then [] else RunsFrom(cpus[0], cpus[0], cpus[1..])
  }

  /** What `cpulist` prints. */
  function Rendered(cpus: seq<nat>): string {
    Join(Texts(Runs(cpus)))
  }

  lemma {:induction false} RunsFromMaximal(start: nat, prev: nat, rest: seq<nat>)
    requires start <= prev
    ensures var r := RunsFrom(start, prev, rest);
            r[0].first == start && forall i :: 0 <= i < |r| - 1 ==> r[i + 1].first != r[i].last + 1
    decreases |rest|
  {
    if rest != [] {
      if rest[0] == prev + 1 {
        RunsFromMaximal(start, rest[0], rest[1..]);
      } else {
        RunsFromMaximal(rest[0], rest[0], rest[1..]);
      }
    }
  }

  /** No two neighbouring runs could be one. */
  lemma RunsAreMaximal(cpus: seq<nat>)
    ensures forall i :: 0 <= i < |Runs(cpus)| - 1 ==> Runs(cpus)[i + 1].first != Runs(cpus)[i].last + 1
  {
    if cpus != [] {
      RunsFromMaximal(cpus[0], cpus[0], cpus[1..]);
    }
  }

  /** The example of the docstring, and a run of one. */
  lemma RenderedExamples()
    ensures Rendered([0, 1, 4, 5]) == "0-1,4-5" && Rendered([3]) == "3"
  {
    var rest := [1, 4, 5];
    assert [0, 1, 4, 5][1..] == rest && rest[1..] == [4, 5] && [4, 5][1..] == [5] && [5][1..] == [];
    assert RunsFrom(4, 4, [5]) == [Run(4, 5)];
    assert RunsFrom(0, 1, [4, 5]) == [Run(0, 1), Run(4, 5)];
    assert Runs([0, 1, 4, 5]) == [Run(0, 1), Run(4, 5)];
    assert Dec(0) == "0" && Dec(1) == "1" && Dec(3) == "3" && Dec(4) == "4" && Dec(5) == "5";
    assert RunText(Run(0, 1)) == "0-1" && RunText(Run(4, 5)) == "4-5";
    assert Texts([Run(0, 1), Run(4, 5)]) == ["0-1", "4-5"] && ["0-1", "4-5"][1..] == ["4-5"];
    assert [3][1..] == [];
  }

  /** `cpulist`: one pass with `start`, `prev` and a sentinel at the end. */
  method CpuList(cpus: seq<nat>) returns (s: string)
    ensures s == Rendered(cpus)
  {
    if cpus == [] {
      return "";
    }
    var parts, start, prev := [], cpus[0], cpus[0];
    ghost var done: seq<Run> := [];
    for i := 1 to |cpus|
      invariant start <= prev && parts == Texts(done)
      invariant Runs(cpus) == done + RunsFrom(start, prev, cpus[i..])
    {
      var c := cpus[i];
      assert cpus[i..][0] == c && cpus[i..][1..] == cpus[i + 1..];
      if c == prev + 1 {
        prev := c;
      } else {
        parts := parts + [if start == prev then Dec(start) else Dec(start) + "-" + Dec(prev)];
        assert done + RunsFrom(start, prev, cpus[i..]) == done + [Run(start, prev)] + RunsFrom(c, c, cpus[i + 1..]);
        done := done + [Run(start, prev)];
        start, prev := c, c;
      }
    }
    assert cpus[|cpus|..] == [];
    assert Runs(cpus) == done + [Run(start, prev)];
    parts := parts + [if start == prev then Dec(start) else Dec(start) + "-" + Dec(prev)];
    assert parts == Texts(done + [Run(start, prev)]);
    s := Join(parts);
  }

  lemma {:induction false} RangeSplit(a: int, b: int, c: int)
    requires a <= b <= c
    ensures Range(a, c) == Range(a, b) + Range(b, c)
    decreases b - a
  {
    if a < b {
      RangeSplit(a + 1, b, c);
      assert [a] + (Range(a + 1, b) + Range(b, c)) == ([a] + Range(a + 1, b)) + Range(b, c);
    } else {
      assert Range(a, b) == [];
      assert Range(a, c) == [] + Range(b, c);
    }
  }

  lemma {:induction false} RunsFromExpand(start: nat, prev: nat, rest: seq<nat>)
    requires start <= prev
    ensures Expand(RunsFrom(start, prev, rest)) == Range(start, prev + 1) + rest
    decreases |rest|
  {
    if rest == [] {
      assert RunsFrom(start, prev, rest)[1..] == [];
    } else if rest[0] == prev + 1 {
      RunsFromExpand(start, rest[0], rest[1..]);
      RangeGrows(start, prev, rest);
    } else {
      RunsFromExpand(rest[0], rest[0], rest[1..]);
      NewRunExpands(start, prev, rest);
    }
  }

  lemma RangeGrows(start: nat, prev: nat, rest: seq<nat>)
    requires start <= prev && rest != [] && rest[0] == prev + 1
    ensures Range(start, rest[0] + 1) + rest[1..] == Range(start, prev + 1) + rest
  {
    RangeSplit(start, prev + 1, rest[0] + 1);
    assert Range(prev + 1, rest[0] + 1) == [rest[0]];
    assert rest == [rest[0]] + rest[1..];
  }

  lemma NewRunExpands(start: nat, prev: nat, rest: seq<nat>)
    requires start <= prev && rest != [] && rest[0] != prev + 1
    requires Expand(RunsFrom(rest[0], rest[0], rest[1..])) == Range(rest[0], rest[0] + 1) + rest[1..]
    ensures Expand(RunsFrom(start, prev, rest)) == Range(start, prev + 1) + rest
  {
    var runs := RunsFrom(start, prev, rest);
    assert Range(rest[0], rest[0] + 1) == [rest[0]];
    assert runs[0] == Run(start, prev) && runs[1..] == RunsFrom(rest[0], rest[0], rest[1..]);
    assert Expand(runs[1..]) == rest;
  }

  /** The runs of a list, written out, are the list. */
  lemma RunsExpand(cpus: seq<nat>)
    ensures Expand(Runs(cpus)) == cpus
  {
    if cpus != [] {
      RunsFromExpand(cpus[0], cpus[0], cpus[1..]);
      assert Range(cpus[0], cpus[0] + 1) == [cpus[0]];
    }
  }

  // ---------------------------------------------------------------- parsing

  predicate IsSpace(c: char) {
    c == ' ' || '\t' <= c <= '\r'
  }

  function Strip(s: string): string {
    if s != "" && IsSpace(s[0]) then Strip(s[1..])
    else if s != "" && IsSpace(s[|s| - 1]) then Strip(s[..|s| - 1])
    else s
  }

  /** `int(s)` on a text without a minus sign; `None` is the ValueError. */
  function PyInt(s: string): Option<nat> {
    var t := Strip(s);
    var d := if t != "" && t[0] == '+' then t[1..] else t;
    if d != "" && AllDigits(d) then Some(Val(d)) else None
  }

  /** One part between commas. */
  function PartCpus(part: string): Option<seq<int>> {
    if '-' in part then
      var f := Fields(part, '-');
      if |f| != 2 then None
      else
        var a, b := PyInt(f[0]), PyInt(f[1]);
        if a.None? || b.None? then None else Some(Range(a.value, b.value + 1))
    else
      var a := PyInt(part);
      if a.None? then None else Some([a.value])
  }

  function PartsCpus(parts: seq<string>): Option<seq<int>> {
    if parts == [] then Some([])
    else
      var a, rest := PartCpus(parts[0]), PartsCpus(parts[1..]);
      if a.None? || rest.None? then None else Some(a.value + rest.value)
  }

  /** What `parse_cpulist` returns; `None` is the ValueError. */
  function Parsed(s: string): Option<seq<int>> {
    var out := PartsCpus(Fields(s, ','));
    if out.None? then None else Some(Sort(out.value))
  }

  lemma {:induction false} PartsAppend(a: seq<string>, p: string)
    ensures PartsCpus(a + [p])
            == if PartsCpus(a).None? || PartCpus(p).None? then None
               else Some(PartsCpus(a).value + PartCpus(p).value)
  {
    if a == [] {
      assert a + [p] == [p] && [p][1..] == [];
      if PartCpus(p).Some? {
        assert PartCpus(p).value + [] == PartCpus(p).value == [] + PartCpus(p).value;
      }
    } else {
      assert (a + [p])[0] == a[0] && (a + [p])[1..] == a[1..] + [p];
      PartsAppend(a[1..], p);
      var x, y, z := PartCpus(a[0]), PartsCpus(a[1..]), PartCpus(p);
      if x.Some? && y.Some? && z.Some? {
        assert x.value + (y.value + z.value) == (x.value + y.value) + z.value;
      }
    }
  }

  lemma {:induction false} PartsFail(parts: seq<string>, i: nat)
    requires i < |parts| && PartCpus(parts[i]).None?
    ensures PartsCpus(parts).None?
  {
    if i > 0 {
      PartsFail(parts[1..], i - 1);
    }
  }

  /** `parse_cpulist`: extend a list part by part, then sort it. */
  method ParseCpuList(s: string) returns (r: Result<seq<int>, string>)
    ensures r.Ok? <==> Parsed(s).Some?
    ensures r.Ok? ==> r.value == Parsed(s).value
  {
    var parts := Fields(s, ',');
    var out: seq<int> := [];
    for i := 0 to |parts|
      invariant PartsCpus(parts[..i]) == Some(out)
    {
      var part := parts[i];
      assert parts[..i + 1] == parts[..i] + [part];
      PartsAppend(parts[..i], part);
      if '-' in part {
        var f := Fields(part, '-');
        if |f| != 2 {
          PartsFail(parts, i);
          return Err("too many values to unpack");
        }
        var a, b := PyInt(f[0]), PyInt(f[1]);
        if a.None? || b.None? {
          PartsFail(parts, i);
          return Err("invalid literal for int()");
        }
        out := out + Range(a.value, b.value + 1);
      } else {
        var a := PyInt(part);
        if a.None? {
          PartsFail(parts, i);
          return Err("invalid literal for int()");
        }
        out := out + [a.value];
      }
    }
    assert parts[..|parts|] == parts;
    return Ok(Sort(out));
  }

  // ---------------------------------------------------------------- round trip

  lemma DigitsParse(d: string)
    requires d != "" && AllDigits(d)
    ensures PyInt(d) == Some(Val(d)) && Free(d, '-') && Free(d, ',')
  {
    assert IsDigit(d[0]) && IsDigit(d[|d| - 1]);
    assert Strip(d) == d;
  }

  /** `a-b` splits into its two numbers. */
  lemma DashSplits(a: string, b: string)
    requires Free(a, '-') && Free(b, '-') && Free(a, ',') && Free(b, ',')
    ensures '-' in a + "-" + b && Free(a + "-" + b, ',')
    ensures Fields(a + "-" + b, '-') == [a, b]
  {
    var t := a + "-" + b;
    assert t[|a|] == '-';
    FieldsOfJoin(a, '-', b);
    FieldsOfJoin(b, '-', "");
    assert t == a + ['-'] + b;
    assert [a] + [b] == [a, b];
  }

  lemma RunParses(r: Run)
    requires r.first <= r.last
    ensures PartCpus(RunText(r)) == Some(Range(r.first, r.last + 1)) && Free(RunText(r), ',')
  {
    var a, b := Dec(r.first), Dec(r.last);
    DecIsDecimal(r.first);
    DecIsDecimal(r.last);
    DigitsParse(a);
    DigitsParse(b);
    if r.first == r.last {
      assert Range(r.first + 1, r.first + 1) == [];
      assert Range(r.first, r.first + 1) == [r.first as int];
    } else {
      DashSplits(a, b);
    }
  }

  lemma OnePartMore(t: string, a: seq<int>, parts: seq<string>, b: seq<int>)
    requires PartCpus(t) == Some(a) && PartsCpus(parts) == Some(b)
    ensures PartsCpus([t] + parts) == Some(a + b)
  {
    assert ([t] + parts)[1..] == parts;
  }

  lemma {:induction false} RunsParse(runs: seq<Run>)
    requires runs != [] && forall i :: 0 <= i < |runs| ==> runs[i].first <= runs[i].last
    ensures PartsCpus(Fields(Join(Texts(runs)), ',')) == Some(Expand(runs))
  {
    RunParses(runs[0]);
    var t := RunText(runs[0]);
    if |runs| == 1 {
      FieldsOfJoin(t, ',', "");
      assert Join(Texts(runs)) == t;
      assert runs[1..] == [] && [t] + [] == [t];
      OnePartMore(t, Range(runs[0].first, runs[0].last + 1), [], []);
    } else {
      RunsParse(runs[1..]);
      assert Texts(runs)[1..] == Texts(runs[1..]);
      var rest := Join(Texts(runs[1..]));
      FieldsOfJoin(t, ',', rest);
      OnePartMore(t, Range(runs[0].first, runs[0].last + 1), Fields(rest, ','), Expand(runs[1..]));
    }
  }

  /** The harness reads back what it prints: the parsed list is the rendered list, sorted. */
  lemma RoundTrip(cpus: seq<nat>)
    requires cpus != []
    ensures Parsed(Rendered(cpus)) == Some(Sort(cpus))
  {
    RunsParse(Runs(cpus));
    RunsExpand(cpus);
  }

  /** The list comes back unchanged exactly when it is non-empty and in order. */
  lemma RoundTripExact(cpus: seq<nat>)
    ensures Parsed(Rendered(cpus)) == Some(cpus) <==> cpus != [] && IsSorted(cpus)
  {
    if cpus == [] {
      assert Rendered(cpus) == "";
      assert Fields("", ',') == [""];
      assert Strip("") == "";
      assert PyInt("").None?;
      assert PartsCpus([""]).None?;
    } else {
      RoundTrip(cpus);
      if IsSorted(cpus) {
        SortKeepsSorted(cpus);
      }
    }
  }
}
