/**
 The default partition of the harness (scripts/bench.py) against the loader's check that no
 physical core is split between the domains (src/bls.c).
 */
module Partition {
  import opened Wrappers
  import opened Domains
  import opened CpuLists
  import opened LoaderLists

  // ---------------------------------------------------------------- default_partition

  /** `sorted(set(xs))`. */
  function Distinct(xs: seq<int>): (r: seq<int>)
    ensures forall i, j :: 0 <= i < j < |r| ==> r[i] < r[j]
    ensures forall x :: x in r <==> x in xs
  {
    if xs == [] then []
    else
      var rest := Distinct(xs[1..]);
      assert xs == [xs[0]] + xs[1..];
      if xs[0] in rest then rest else InsertNew(xs[0], rest)
  }

  function InsertNew(x: int, s: seq<int>): (r: seq<int>)
    requires (forall i, j :: 0 <= i < j < |s| ==> s[i] < s[j]) && x !in s
    ensures forall i, j :: 0 <= i < j < |r| ==> r[i] < r[j]
    ensures forall y :: y in r <==> y in s || y == x
  {
    if s == [] then [x]
    else if x < s[0] then [x] + s
    else
      var t := InsertNew(x, s[1..]);
      assert s == [s[0]] + s[1..];
      assert forall i :: 0 <= i < |t| ==> t[i] in t;
      [s[0]] + t
  }

  function Max(a: int, b: int): int {
    if a >= b then a else b
  }

  /** The lower half of the cores, at least one if there is one. `topo[c]` is the core of CPU `c`. */
  function BigCores(topo: seq<int>): (r: seq<int>)
  {
    var cores := Distinct(topo);
    cores[..if cores == [] then 0 else Max(1, |cores| / 2)]
  }

  /** `[c for c in range(n) if want(topo[c])]`, in increasing order. */
  function CpusOn(topo: seq<int>, cores: seq<int>, member: bool, n: nat): (r: seq<nat>)
    requires n <= |topo|
    ensures forall c: nat :: c in r <==> c < n && (topo[c] in cores <==> member)
  {
    if n == 0 then []
    else CpusOn(topo, cores, member, n - 1) + if topo[n - 1] in cores <==> member then [n - 1] else []
  }

  /** `default_partition`. */
  function DefaultPartition(topo: seq<int>): (r: (seq<nat>, seq<nat>))
    ensures forall c: nat :: c in r.0 <==> c < |topo| && topo[c] in BigCores(topo)
    ensures forall c: nat :: c in r.1 <==> c < |topo| && topo[c] !in BigCores(topo)
  {
    (CpusOn(topo, BigCores(topo), true, |topo|), CpusOn(topo, BigCores(topo), false, |topo|))
  }

  /** In an increasing list, the first `k` elements are the ones at positions below `k`. */
  lemma InPrefix(s: seq<int>, k: nat, j: nat)
    requires (forall a, b :: 0 <= a < b < |s| ==> s[a] < s[b]) && k <= |s| && j < |s|
    ensures s[j] in s[..k] <==> j < k
  {
    if j < k {
      assert s[..k][j] == s[j];
    } else {
      assert forall i :: 0 <= i < k ==> s[..k][i] < s[j];
    }
  }

  /** Position of the core of CPU `a` among the distinct cores. */
  lemma CorePosition(topo: seq<int>, a: nat) returns (i: nat)
    requires a < |topo|
    ensures i < |Distinct(topo)| && Distinct(topo)[i] == topo[a]
    ensures topo[a] in BigCores(topo) <==> i < |BigCores(topo)|
  {
    assert topo[a] in topo;
    i :| 0 <= i < |Distinct(topo)| && Distinct(topo)[i] == topo[a];
    InPrefix(Distinct(topo), |BigCores(topo)|, i);
  }

  lemma CpuOfCore(topo: seq<int>, i: nat) returns (a: nat)
    requires i < |Distinct(topo)|
    ensures a < |topo| && topo[a] == Distinct(topo)[i]
    ensures topo[a] in BigCores(topo) <==> i < |BigCores(topo)|
  {
    assert Distinct(topo)[i] in Distinct(topo);
    assert Distinct(topo)[i] in topo;
    a :| 0 <= a < |topo| && topo[a] == Distinct(topo)[i];
    InPrefix(Distinct(topo), |BigCores(topo)|, i);
  }

  /** The big cores are the lower ones: every big core is below every core that is not big. */
  lemma BigCoresAreLower(topo: seq<int>, a: nat, b: nat)
    requires a < |topo| && b < |topo| && topo[a] in BigCores(topo) && topo[b] !in BigCores(topo)
    ensures topo[a] < topo[b]
  {
    var i := CorePosition(topo, a);
    var j := CorePosition(topo, b);
    assert i < j;
  }

  lemma BothSidesPopulated(topo: seq<int>)
    requires topo != []
    ensures exists a :: 0 <= a < |topo| && topo[a] in BigCores(topo)
    ensures |Distinct(topo)| >= 2 <==> exists b :: 0 <= b < |topo| && topo[b] !in BigCores(topo)
  {
    assert topo[0] in topo;
    assert Distinct(topo) != [];
    var a := CpuOfCore(topo, 0);
    var b := CpuOfCore(topo, |Distinct(topo)| - 1);
    if |Distinct(topo)| == 1 {
      forall c | 0 <= c < |topo| ensures topo[c] in BigCores(topo) {
        var i := CorePosition(topo, c);
      }
    }
  }

  /** The cores of some CPUs. */
  function CoresOf(topo: seq<int>, cpus: seq<nat>): set<int> {
    set i | 0 <= i < |cpus| && cpus[i] < |topo| :: topo[cpus[i]]
  }

  function Elements(s: seq<int>): set<int> {
    set i | 0 <= i < |s| :: s[i]
  }

  lemma {:induction false} IncreasingIsASet(s: seq<int>)
    requires forall i, j :: 0 <= i < j < |s| ==> s[i] < s[j]
    ensures |Elements(s)| == |s|
  {
    if s != [] {
      var n := |s| - 1;
      IncreasingIsASet(s[..n]);
      assert Elements(s) == Elements(s[..n]) + {s[n]};
    }
  }

  ghost predicate Increasing(cpus: seq<nat>) {
    forall i, j :: 0 <= i < j < |cpus| ==> cpus[i] < cpus[j]
  }

  lemma {:induction false} CpusOnIncreases(topo: seq<int>, cores: seq<int>, member: bool, n: nat)
    requires n <= |topo|
    ensures Increasing(CpusOn(topo, cores, member, n))
  {
    if n > 0 {
      CpusOnIncreases(topo, cores, member, n - 1);
      var r := CpusOn(topo, cores, member, n - 1);
      assert forall i :: 0 <= i < |r| ==> r[i] in r;
    }
  }

  /** The cores on the big side are the big ones. */
  lemma BigSide(topo: seq<int>)
    ensures CoresOf(topo, DefaultPartition(topo).0) == Elements(BigCores(topo))
  {
    var big, cores := DefaultPartition(topo).0, BigCores(topo);
    forall x | x in CoresOf(topo, big) ensures x in Elements(cores) {
      var i :| 0 <= i < |big| && big[i] < |topo| && topo[big[i]] == x;
      assert big[i] in big;
    }
    forall x | x in Elements(cores) ensures x in CoresOf(topo, big) {
      var i :| 0 <= i < |cores| && cores[i] == x;
      var a := CpuOfCore(topo, i);
      assert a in big;
      var k :| 0 <= k < |big| && big[k] == a;
    }
  }

  /** `default_partition`, said of its two lists alone: they share out the CPUs in increasing order; the big
      one has the lower half of the cores, rounded down, but a single core is big. */
  lemma LowerHalfIsBig(topo: seq<int>)
    ensures var (big, little), n := DefaultPartition(topo), |Elements(topo)|;
            && Increasing(big) && Increasing(little)
            && (forall c: nat :: c < |topo| <==> c in big || c in little) && (forall c :: c in big ==> c !in little)
            && |CoresOf(topo, big)| == (if n == 1 then 1 else n / 2)
            && forall x, y :: x in CoresOf(topo, big) && y in CoresOf(topo, little) ==> x < y
  {
    var (big, little) := DefaultPartition(topo);
    CpusOnIncreases(topo, BigCores(topo), true, |topo|);
    CpusOnIncreases(topo, BigCores(topo), false, |topo|);
    BigSide(topo);
    IncreasingIsASet(Distinct(topo));
    IncreasingIsASet(BigCores(topo));
    SameElements(topo);
    forall x, y | x in CoresOf(topo, big) && y in CoresOf(topo, little) ensures x < y {
      BigSideIsLower(topo, x, y);
    }
  }

  lemma BigSideIsLower(topo: seq<int>, x: int, y: int)
    requires x in CoresOf(topo, DefaultPartition(topo).0) && y in CoresOf(topo, DefaultPartition(topo).1)
    ensures x < y
  {
    var (big, little) := DefaultPartition(topo);
    var i :| 0 <= i < |big| && big[i] < |topo| && topo[big[i]] == x;
    var j :| 0 <= j < |little| && little[j] < |topo| && topo[little[j]] == y;
    assert big[i] in big && little[j] in little;
    BigCoresAreLower(topo, big[i], little[j]);
  }

  lemma SameElements(topo: seq<int>)
    ensures Elements(Distinct(topo)) == Elements(topo)
  {
    forall x ensures x in Elements(Distinct(topo)) <==> x in Elements(topo) {
      assert x in Distinct(topo) <==> x in topo;
    }
  }

  // ---------------------------------------------------------------- check_smt_split

  /** The first CPU on the same core as CPU `i`. */
  function FirstOnCore(core: seq<int>, i: nat): (j: nat)
    requires i < |core|
    ensures j <= i && core[j] == core[i] && forall k :: 0 <= k < j ==> core[k] != core[i]
  {
    FirstFrom(core, core[i], 0, i)
  }

  function FirstFrom(core: seq<int>, c: int, j: nat, i: nat): (r: nat)
    requires j <= i < |core| && core[i] == c && forall k :: 0 <= k < j ==> core[k] != c
    ensures r <= i && core[r] == c && forall k :: 0 <= k < r ==> core[k] != c
    decreases i - j
  {
    if core[j] == c then j else FirstFrom(core, c, j + 1, i)
  }

  /** CPU `i` has a known core whose first CPU is in the other domain. */
  predicate Misplaced(core: seq<int>, dom: seq<Dom>, i: nat)
    requires i < |core| <= |dom|
  {
    core[i] >= 0 && dom[FirstOnCore(core, i)] != dom[i]
  }

  function BadCount(core: seq<int>, dom: seq<Dom>, n: nat): nat
    requires n <= |core| <= |dom|
  {
    if n == 0 then 0 else BadCount(core, dom, n - 1) + if Misplaced(core, dom, n - 1) then 1 else 0
  }

  lemma SameFirst(core: seq<int>, k: nat, i: nat)
    requires k < |core| && i < |core| && core[k] == core[i]
    ensures FirstOnCore(core, k) == FirstOnCore(core, i)
  {
    assert core[FirstOnCore(core, k)] == core[FirstOnCore(core, i)];
  }

  /** A core that none of the first CPUs seen so far sits on is seen for the first time. */
  lemma FirstIsNew(core: seq<int>, firsts: seq<nat>, i: nat)
    requires i < |core| && core[i] >= 0
    requires forall k :: 0 <= k < i && core[k] >= 0 ==> FirstOnCore(core, k) in firsts
    requires forall f :: f in firsts ==> f < |core| && core[f] != core[i]
    ensures FirstOnCore(core, i) == i
  {
    var f := FirstOnCore(core, i);
    SameFirst(core, f, i);
    assert f < i ==> f in firsts;
  }

  /** The scan of the cores seen so far. */
  method FindCore(seenCore: array<int>, nrSeen: nat, c: int) returns (found: int)
    requires nrSeen <= seenCore.Length
    ensures -1 <= found < nrSeen
    ensures found >= 0 ==> seenCore[found] == c
    ensures found < 0 ==> forall k :: 0 <= k < nrSeen ==> seenCore[k] != c
  {
    found := -1;
    for j := 0 to nrSeen
      invariant -1 <= found < j && (found >= 0 ==> seenCore[found] == c)
      invariant found < 0 ==> forall k :: 0 <= k < j ==> seenCore[k] != c
    {
      if seenCore[j] == c {
        found := j;
      }
    }
  }

  /** `check_smt_split`: tables of the cores seen so far and of the domain each was first seen in. */
  method CheckSmtSplit(core: seq<int>, dom: seq<Dom>) returns (bad: nat)
    requires |core| <= MAX_CPUS && |core| <= |dom|
    ensures bad == BadCount(core, dom, |core|)
  {
    var seenCore := new int[MAX_CPUS];
    var seenDom := new Dom[MAX_CPUS](_ => Big);
    var nrSeen := 0;
    ghost var firsts: seq<nat> := [];
    bad := 0;
    for i := 0 to |core|
      invariant nrSeen == |firsts| <= i && bad == BadCount(core, dom, i)
      invariant forall j :: 0 <= j < nrSeen ==>
                  firsts[j] < i && seenCore[j] == core[firsts[j]] && seenDom[j] == dom[firsts[j]]
                  && FirstOnCore(core, firsts[j]) == firsts[j]
      invariant forall k :: 0 <= k < i && core[k] >= 0 ==> FirstOnCore(core, k) in firsts
    {
      if core[i] < 0 { continue; }
      var found := FindCore(seenCore, nrSeen, core[i]);
      if found < 0 {
        forall f | f in firsts ensures f < |core| && core[f] != core[i] {
          var j :| 0 <= j < |firsts| && firsts[j] == f;
          assert seenCore[j] == core[f];
        }
        FirstIsNew(core, firsts, i);
        seenCore[nrSeen], seenDom[nrSeen] := core[i], dom[i];
        nrSeen, firsts := nrSeen + 1, firsts + [i];
      } else {
        SameFirst(core, firsts[found], i);
        if seenDom[found] != dom[i] {
          bad := bad + 1;
        }
      }
    }
  }

  /** No known core has CPUs in both domains. */
  ghost predicate Unsplit(core: seq<int>, dom: seq<Dom>)
    requires |core| <= |dom|
  {
    forall i, j :: 0 <= i < |core| && 0 <= j < |core| && core[i] == core[j] && core[i] >= 0 ==> dom[i] == dom[j]
  }

  /** CPU `i` is on a known core whose first CPU, an earlier one, is in the other domain. */
  ghost predicate IsSplit(core: seq<int>, dom: seq<Dom>, i: nat)
    requires i < |core| <= |dom|
  {
    core[i] >= 0
    && exists j :: 0 <= j < i && core[j] == core[i] && dom[j] != dom[i] && forall k :: 0 <= k < j ==> core[k] != core[i]
  }

  lemma SplitIsMisplaced(core: seq<int>, dom: seq<Dom>, i: nat)
    requires i < |core| <= |dom|
    ensures IsSplit(core, dom, i) <==> Misplaced(core, dom, i)
  {
    var f := FirstOnCore(core, i);
    if IsSplit(core, dom, i) {
      var j :| 0 <= j < i && core[j] == core[i] && dom[j] != dom[i] && forall k :: 0 <= k < j ==> core[k] != core[i];
      assert j == f;
    }
  }

  ghost function SplitCpus(core: seq<int>, dom: seq<Dom>, n: nat): set<nat>
    requires n <= |core| <= |dom|
  {
    set i: nat | i < n && IsSplit(core, dom, i)
  }

  /** The count is the number of those CPUs. */
  lemma {:induction false} CountsSplitCpus(core: seq<int>, dom: seq<Dom>, n: nat)
    requires n <= |core| <= |dom|
    ensures BadCount(core, dom, n) == |SplitCpus(core, dom, n)|
  {
    if n > 0 {
      CountsSplitCpus(core, dom, n - 1);
      SplitIsMisplaced(core, dom, n - 1);
      SplitGrows(core, dom, n);
    }
  }

  lemma SplitGrows(core: seq<int>, dom: seq<Dom>, n: nat)
    requires 0 < n <= |core| <= |dom|
    ensures |SplitCpus(core, dom, n)| == |SplitCpus(core, dom, n - 1)| + if IsSplit(core, dom, n - 1) then 1 else 0
  {
    var before, after := SplitCpus(core, dom, n - 1), SplitCpus(core, dom, n);
    forall i | i in before ensures i < n - 1 && i in after {
    }
    forall i | i in after ensures i in before || i == n - 1 {
    }
    assert n - 1 in after <==> IsSplit(core, dom, n - 1);
    assert after == if IsSplit(core, dom, n - 1) then before + {n - 1} else before;
  }

  lemma {:induction false} BadCountZero(core: seq<int>, dom: seq<Dom>, n: nat)
    requires n <= |core| <= |dom|
    ensures BadCount(core, dom, n) == 0 <==> forall i :: 0 <= i < n ==> !Misplaced(core, dom, i)
  {
    if n > 0 {
      BadCountZero(core, dom, n - 1);
    }
  }

  /** The check counts nothing exactly when no physical core is split. */
  lemma SmtCheckExact(core: seq<int>, dom: seq<Dom>)
    requires |core| <= |dom|
    ensures BadCount(core, dom, |core|) == 0 <==> Unsplit(core, dom)
  {
    BadCountZero(core, dom, |core|);
    if forall i :: 0 <= i < |core| ==> !Misplaced(core, dom, i) {
      forall i, j | 0 <= i < |core| && 0 <= j < |core| && core[i] == core[j] && core[i] >= 0 ensures dom[i] == dom[j] {
        SameFirst(core, i, j);
        assert !Misplaced(core, dom, i) && !Misplaced(core, dom, j);
      }
    }
  }

  // ---------------------------------------------------------------- end to end

  /** On any topology of at most 64 CPUs: the default partition, rendered by the harness and read by the
      loader, makes a CPU BIG exactly if its core is in the lower half, and the loader's check finds no
      split core. */
  lemma DefaultPartitionIsRealisable(topo: seq<int>, dom: seq<Dom>)
    requires 1 <= |topo| <= MAX_CPUS && |dom| >= |topo|
    requires var (big, little) := DefaultPartition(topo);
             forall c :: 0 <= c < |topo| ==> dom[c] == DomainByLists(Some(Rendered(big)), Some(Rendered(little)), c)
    ensures forall c :: 0 <= c < |topo| ==> (dom[c] == Big <==> c in DefaultPartition(topo).0)
    ensures forall c :: 0 <= c < |topo| ==> (dom[c] == Big <==> topo[c] in BigCores(topo))
    ensures BadCount(topo, dom, |topo|) == 0
  {
    var (big, little) := DefaultPartition(topo);
    assert forall i :: 0 <= i < |big| ==> big[i] in big;
    assert forall i :: 0 <= i < |little| ==> little[i] in little;
    forall c | 0 <= c < |topo| ensures dom[c] == Big <==> topo[c] in BigCores(topo) {
      PartitionReachesLoader(|topo|, big, little, c);
    }
    SmtCheckExact(topo, dom);
  }
}
