/** `sorted()` of a list of integers. */
module Sorting {

  predicate IsSorted(s: seq<int>) {
    forall i, j :: 0 <= i < j < |s| ==> s[i] <= s[j]
  }

  lemma Prepended(x: int, s: seq<int>, t: seq<int>, y: int)
    requires IsSorted(t) && multiset(t) == multiset(s) + multiset{x}
    requires y <= x && forall i :: 0 <= i < |s| ==> y <= s[i]
    ensures IsSorted([y] + t)
  {
    forall i | 0 <= i < |t| ensures y <= t[i] {
      assert t[i] in multiset(t);
    }
  }

  function Insert(x: int, s: seq<int>): (r: seq<int>)
    requires IsSorted(s)
    ensures IsSorted(r) && multiset(r) == multiset(s) + multiset{x}
  {
    if s == [] then [x]
    else if x <= s[0] then [x] + s
    else
      var t := Insert(x, s[1..]);
      assert s == [s[0]] + s[1..];
      Prepended(x, s[1..], t, s[0]);
      [s[0]] + t
  }

  /** The sorted permutation of `s`. */
  function Sort(s: seq<int>): (r: seq<int>)
    ensures IsSorted(r) && multiset(r) == multiset(s)
  {
    if s == [] then [] else
      assert s == [s[0]] + s[1..];
      Insert(s[0], Sort(s[1..]))
  }

  lemma SameHead(a: seq<int>, b: seq<int>)
    requires IsSorted(a) && IsSorted(b) && multiset(a) == multiset(b) && a != [] && b != []
    ensures a[0] == b[0]
  {
    assert a[0] in multiset(b) && b[0] in multiset(a);
  }

  /** There is only one sorted permutation. */
  lemma {:induction false} SortedUnique(a: seq<int>, b: seq<int>)
    requires IsSorted(a) && IsSorted(b) && multiset(a) == multiset(b)
    ensures a == b
    decreases |a|
  {
    assert |multiset(a)| == |a| && |multiset(b)| == |b|;
    if a != [] {
      SameHead(a, b);
      assert a == [a[0]] + a[1..] && b == [b[0]] + b[1..];
      assert multiset(a[1..]) == multiset(a) - multiset{a[0]};
      assert multiset(b[1..]) == multiset(b) - multiset{b[0]};
      SortedUnique(a[1..], b[1..]);
    }
  }

  lemma SortKeepsSorted(s: seq<int>)
    requires IsSorted(s)
    ensures Sort(s) == s
  {
    SortedUnique(Sort(s), s);
  }
}
