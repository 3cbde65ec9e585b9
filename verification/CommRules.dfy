/** The command-name rules: the in-kernel matcher of src/bls.bpf.c. */
module CommRules {
  import opened Wrappers
  import opened Domains

  /** One slot of the rule table; `len == 0` disables the slot. */
  datatype CommRule = CommRule(comm: seq<char>, len: nat, domain: Dom)

  /** A `char[16]` holding what the kernel's bounded string read left there. */
  type CommBuf = s: seq<char> | |s| == COMM_LEN witness ['\0', '\0', '\0', '\0', '\0', '\0', '\0', '\0',
                                                         '\0', '\0', '\0', '\0', '\0', '\0', '\0', '\0']

  ghost predicate ValidRule(r: CommRule) {
    |r.comm| == COMM_LEN
  }

  ghost predicate ValidTable(rules: seq<CommRule>) {
    |rules| == MAX_COMM_RULES && forall i :: 0 <= i < |rules| ==> ValidRule(rules[i])
  }

  /** The rule is enabled and its first `len` bytes agree with the buffer. */
  ghost predicate Matches(r: CommRule, buf: CommBuf)
    requires ValidRule(r)
  {
    0 < r.len <= COMM_LEN && buf[..r.len] == r.comm[..r.len]
  }

  /** Domain of the first matching rule at or after slot `i`. */
  ghost function FirstMatch(rules: seq<CommRule>, buf: CommBuf, i: nat): (r: Option<Dom>)
    requires forall k :: 0 <= k < |rules| ==> ValidRule(rules[k])
    requires i <= |rules|
    ensures r.None? <==> forall k :: i <= k < |rules| ==> !Matches(rules[k], buf)
    ensures r.Some? ==> exists k :: i <= k < |rules| && Matches(rules[k], buf) && rules[k].domain == r.value
                                 && forall l :: i <= l < k ==> !Matches(rules[l], buf)
    decreases |rules| - i
  {
    if i == |rules| then None
    else if Matches(rules[i], buf) then Some(rules[i].domain)
    else FirstMatch(rules, buf, i + 1)
  }

  /** The inner loop of `classify_by_comm`: compare byte by byte, stop at the first difference. */
  method PrefixAgrees(r: CommRule, buf: CommBuf) returns (agree: bool)
    requires ValidRule(r) && 0 < r.len <= COMM_LEN
    ensures agree <==> Matches(r, buf)
  {
    for j := 0 to r.len
      invariant forall k :: 0 <= k < j ==> buf[k] == r.comm[k]
    {
      if buf[j] != r.comm[j] {
        assert buf[..r.len][j] != r.comm[..r.len][j];
        return false;
      }
    }
    assert buf[..r.len] == r.comm[..r.len];
    return true;
  }

  /** `classify_by_comm`: first match wins. `None` is the -1 of the source. */
  method ClassifyByComm(rules: seq<CommRule>, buf: CommBuf) returns (r: Option<Dom>)
    requires ValidTable(rules)
    ensures r == FirstMatch(rules, buf, 0)
  {
    for i := 0 to |rules|
      invariant FirstMatch(rules, buf, 0) == FirstMatch(rules, buf, i)
    {
      if 0 < rules[i].len <= COMM_LEN {
        var agree := PrefixAgrees(rules[i], buf);
        if agree {
          return Some(rules[i].domain);
        }
      }
    }
    return None;
  }
}
