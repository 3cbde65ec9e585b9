/** Text as the loader (C) and the harness (Python) read and write it: fields, decimal numbers. */
module Text {

  /** `c` does not occur in `s`. */
  predicate Free(s: string, c: char) {
    forall i :: 0 <= i < |s| ==> s[i] != c
  }

  /** `s.split(sep)`: the fields between separators, empty ones included. */
  function Fields(s: string, sep: char): (r: seq<string>)
    ensures |r| >= 1
  {
    if s == "" then [""]
    else if s[0] == sep then [""] + Fields(s[1..], sep)
    else var f := Fields(s[1..], sep); [[s[0]] + f[0]] + f[1..]
  }

  lemma {:induction false} FirstField(s: string, sep: char, n: nat)
    requires n <= |s| && Free(s[..n], sep) && (n < |s| ==> s[n] == sep)
    ensures Fields(s, sep) == [s[..n]] + if n == |s| then [] else Fields(s[n + 1..], sep)
    decreases n
  {
    if n == 0 {
      assert s[..0] == "";
    } else {
      assert s[1..][..n - 1] == s[..n][1..];
      FirstField(s[1..], sep, n - 1);
      if n < |s| {
        assert s[1..][n - 1 + 1..] == s[n + 1..];
      }
      assert s[..n][0] == s[0];
      assert [s[0]] + s[1..][..n - 1] == s[..n];
    }
  }

  /** Splitting at the first separator. */
  lemma FieldsOfJoin(a: string, sep: char, b: string)
    requires Free(a, sep)
    ensures Fields(a, sep) == [a]
    ensures Fields(a + [sep] + b, sep) == [a] + Fields(b, sep)
  {
    assert a[..|a|] == a;
    FirstField(a, sep, |a|);
    var s := a + [sep] + b;
    assert s[..|a|] == a && s[|a| + 1..] == b;
    FirstField(s, sep, |a|);
  }

  /** Fields contain no character that the text does not contain. */
  lemma {:induction false} FieldsFree(s: string, sep: char, c: char)
    requires Free(s, c)
    ensures forall i :: 0 <= i < |Fields(s, sep)| ==> Free(Fields(s, sep)[i], c)
  {
    if s != "" {
      FieldsFree(s[1..], sep, c);
      var f := Fields(s[1..], sep);
      if s[0] != sep {
        assert Free([s[0]] + f[0], c);
      }
    }
  }

  // ---------------------------------------------------------------- decimal numbers

  predicate IsDigit(c: char) {
    '0' <= c <= '9'
  }

  predicate AllDigits(s: string) {
    forall i :: 0 <= i < |s| ==> IsDigit(s[i])
  }

  function DigitOf(n: nat): char
    requires n < 10
  {
    '0' + n as char
  }

  /** `str(n)`. */
  function Dec(n: nat): string {
    if n < 10 then [DigitOf(n)] else Dec(n / 10) + [DigitOf(n % 10)]
  }

  /** The number a digit string denotes. */
  function Val(s: string): nat
    requires AllDigits(s)
  {
    if s == "" then 0 else 10 * Val(s[..|s| - 1]) + (s[|s| - 1] - '0') as nat
  }

  lemma {:induction false} DecIsDecimal(n: nat)
    ensures Dec(n) != "" && AllDigits(Dec(n)) && Val(Dec(n)) == n
  {
    var d := Dec(n);
    if n < 10 {
      assert d[..0] == "";
    } else {
      DecIsDecimal(n / 10);
      assert d[..|d| - 1] == Dec(n / 10);
    }
  }

  /** Length of the leading digits. */
  function DigitRun(s: string): (n: nat)
    ensures n <= |s| && AllDigits(s[..n]) && (n < |s| ==> !IsDigit(s[n]))
  {
    if s != "" && IsDigit(s[0]) then
      var n := DigitRun(s[1..]);
      assert s[..1 + n] == [s[0]] + s[1..][..n];
      1 + n
    else 0
  }

  /** A number followed by something that is not a digit. */
  lemma {:induction false} DigitRunOf(d: string, rest: string)
    requires AllDigits(d) && (rest != "" ==> !IsDigit(rest[0]))
    ensures DigitRun(d + rest) == |d|
  {
    if d == "" {
      assert d + rest == rest;
    } else {
      assert (d + rest)[1..] == d[1..] + rest;
      DigitRunOf(d[1..], rest);
    }
  }
}
