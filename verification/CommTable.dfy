/**
 The rule table that the loader builds from `--big-comm` and `--little-comm` (src/bls.c), and what
 classifying by it means end to end: the first listed token that is a prefix of the command name.
 */
module CommTable {
  import opened Wrappers
  import opened Domains
  import opened CommRules
  import opened Text

  // ---------------------------------------------------------------- tokens

  /** A C string. */
  predicate NoNul(s: string) {
    Free(s, '\0')
  }

  function NonEmpty(fs: seq<string>): seq<string> {
    if fs == [] then []
    else (if fs[0] == "" then [] else [fs[0]]) + NonEmpty(fs[1..])
  }

  /** What `strtok_r(s, ",")` yields: the non-empty fields. */
  function Tokens(s: string): seq<string> {
    NonEmpty(Fields(s, ','))
  }

  lemma {:induction false} TokensSkip(s: string)
    requires s != "" && s[0] == ','
    ensures Tokens(s) == Tokens(s[1..])
  {
    var f := Fields(s[1..], ',');
    assert ([""] + f)[1..] == f;
  }

  /** A token is a maximal run of characters other than the comma. */
  lemma TokensTake(s: string, n: nat)
    requires 0 < n <= |s| && Free(s[..n], ',') && (n < |s| ==> s[n] == ',')
    ensures Tokens(s) == [s[..n]] + Tokens(s[n..])
  {
    FirstField(s, ',', n);
    if n < |s| {
      var f := Fields(s[n + 1..], ',');
      assert ([s[..n]] + f)[1..] == f;
      TokensSkip(s[n..]);
      assert s[n..][1..] == s[n + 1..];
    } else {
      assert s[n..] == "";
      assert ([s[..n]] + [])[1..] == [];
    }
  }

  /** One call of `strtok_r`: the next token is `s[start..end]`; none if `start == end`. */
  method NextToken(s: string, pos: nat) returns (start: nat, end: nat)
    requires pos <= |s|
    ensures pos <= start <= end <= |s|
    ensures start == end ==> Tokens(s[pos..]) == []
    ensures start < end ==> Tokens(s[pos..]) == [s[start..end]] + Tokens(s[end..])
  {
    start := pos;
    while start < |s| && s[start] == ','
      invariant pos <= start <= |s| && Tokens(s[pos..]) == Tokens(s[start..])
    {
      TokensSkip(s[start..]);
      assert s[start..][1..] == s[start + 1..];
      start := start + 1;
    }
    end := start;
    while end < |s| && s[end] != ','
      invariant start <= end <= |s| && forall i :: start <= i < end ==> s[i] != ','
    {
      end := end + 1;
    }
    if start < end {
      TokensTake(s[start..], end - start);
      assert s[start..][..end - start] == s[start..end] && s[start..][end - start..] == s[end..];
    } else {
      assert s[start..] == "";
    }
  }

  // ---------------------------------------------------------------- the table

  function Min(a: nat, b: nat): nat {
    if a < b then a else b
  }

  /** The slot after `memcpy` of a token: bytes past the copied ones stay as they were. */
  function RuleOf(tok: string, d: Dom, was: CommRule): CommRule
    requires |was.comm| == COMM_LEN
  {
    var len := Min(|tok|, COMM_LEN);
    CommRule(tok[..len] + was.comm[len..], len, d)
  }

  ghost predicate ValidRules(t: seq<CommRule>) {
    forall i :: 0 <= i < |t| ==> ValidRule(t[i])
  }

  /** Table `t` with the tokens in the slots from `slot` on. */
  ghost function Fill(t: seq<CommRule>, slot: nat, toks: seq<string>, d: Dom): (r: seq<CommRule>)
    requires ValidRules(t) && slot + |toks| <= |t|
    ensures ValidRules(r) && |r| == |t|
  {
    seq(|t|, i requires 0 <= i < |t| => if slot <= i < slot + |toks| then RuleOf(toks[i - slot], d, t[i]) else t[i])
  }

  /** `add_comm_rules`: fill slots from `slot` on; an error is the loader's "too many comm rules" exit. */
  method AddCommRules(table: array<CommRule>, list: string, d: Dom, slot: nat) returns (r: Result<nat, string>)
    requires table.Length == MAX_COMM_RULES && slot <= table.Length && ValidRules(table[..])
    modifies table
    ensures r.Ok? <==> slot + |Tokens(list)| <= MAX_COMM_RULES
    ensures r.Ok? ==> r.value == slot + |Tokens(list)| && table[..] == Fill(old(table[..]), slot, Tokens(list), d)
    ensures ValidRules(table[..])
  {
    var pos, next := 0, slot;
    ghost var was := table[..];
    ghost var done: seq<string> := [];
    assert list[0..] == list;
    while true
      invariant 0 <= pos <= |list| && next == slot + |done| <= MAX_COMM_RULES
      invariant Tokens(list) == done + Tokens(list[pos..])
      invariant table[..] == Fill(was, slot, done, d)
      decreases |list| - pos
    {
      var start, end := NextToken(list, pos);
      if start == end {
        assert Tokens(list) == done;
        return Ok(next);
      }
      var tok := list[start..end];
      assert Tokens(list) == (done + [tok]) + Tokens(list[end..]);
      if next >= MAX_COMM_RULES {
        return Err("too many comm rules");
      }
      FillMore(was, slot, done, tok, d);
      table[next] := RuleOf(tok, d, table[next]);
      done := done + [tok];
      next, pos := next + 1, end;
    }
  }

  lemma FillMore(t: seq<CommRule>, slot: nat, toks: seq<string>, tok: string, d: Dom)
    requires ValidRules(t) && slot + |toks| < |t|
    ensures var r, k := Fill(t, slot, toks, d), slot + |toks|;
            ValidRule(r[k]) && Fill(t, slot, toks + [tok], d) == r[k := RuleOf(tok, d, r[k])]
  {
  }

  /** The table of a fresh skeleton: all zero. */
  function BlankTable(): (t: seq<CommRule>)
    ensures ValidTable(t) && ValidRules(t) && forall i :: 0 <= i < |t| ==> t[i].len == 0
  {
    seq(MAX_COMM_RULES, _ => CommRule(seq(COMM_LEN, _ => '\0'), 0, Big))
  }

  /** The part of the loader's `main` that builds the table: the big list first. */
  method BuildTable(bigComm: Option<string>, littleComm: Option<string>) returns (r: Result<seq<CommRule>, string>)
    ensures r.Ok? <==> |Rules(bigComm, littleComm)| <= MAX_COMM_RULES
    ensures r.Ok? ==> ValidTable(r.value) && r.value == TableOf(bigComm, littleComm)
  {
    var blank := BlankTable();
    var table := new CommRule[MAX_COMM_RULES](i requires 0 <= i < MAX_COMM_RULES => blank[i]);
    assert table[..] == blank;
    var slot := 0;
    if bigComm.Some? {
      var a := AddCommRules(table, bigComm.value, Big, slot);
      if a.Err? { return Err(a.error); }
      slot := a.value;
    }
    if littleComm.Some? {
      var b := AddCommRules(table, littleComm.value, Little, slot);
      if b.Err? { return Err(b.error); }
    }
    return Ok(table[..]);
  }

  function TokensOf(list: Option<string>): seq<string> {
    if list.Some? then Tokens(list.value) else []
  }

  ghost function TableOf(bigComm: Option<string>, littleComm: Option<string>): (t: seq<CommRule>)
    requires |TokensOf(bigComm)| + |TokensOf(littleComm)| <= MAX_COMM_RULES
    ensures ValidTable(t)
  {
    var b, l := TokensOf(bigComm), TokensOf(littleComm);
    Fill(Fill(BlankTable(), 0, b, Big), |b|, l, Little)
  }

  // ---------------------------------------------------------------- what the table means

  /** The rules of one list. */
  function RulesOf(list: Option<string>, d: Dom): (r: seq<(string, Dom)>)
    ensures |r| == |TokensOf(list)| && forall i :: 0 <= i < |r| ==> r[i] == (TokensOf(list)[i], d)
  {
    seq(|TokensOf(list)|, i requires 0 <= i < |TokensOf(list)| => (TokensOf(list)[i], d))
  }

  /** The user's rules in order: all big tokens, then all little ones. */
  function Rules(bigComm: Option<string>, littleComm: Option<string>): (r: seq<(string, Dom)>)
    ensures |r| == |TokensOf(bigComm)| + |TokensOf(littleComm)|
  {
    RulesOf(bigComm, Big) + RulesOf(littleComm, Little)
  }

  /** Domain of the first token that is a prefix of the name; tokens of 16 or more characters do not count. */
  function FirstPrefix(rules: seq<(string, Dom)>, name: string): Option<Dom> {
    if rules == [] then None
    else if |rules[0].0| < COMM_LEN && rules[0].0 <= name then Some(rules[0].1)
    else FirstPrefix(rules[1..], name)
  }

  /** What the bounded string read leaves in the buffer for a command name: the name, a NUL, anything. */
  predicate Holds(buf: CommBuf, name: string) {
    NoNul(name) && |name| < COMM_LEN && buf[..|name|] == name && buf[|name|] == '\0'
  }

  lemma RuleMeansPrefix(tok: string, d: Dom, was: CommRule, buf: CommBuf, name: string)
    requires ValidRule(was) && NoNul(tok) && tok != "" && Holds(buf, name)
    ensures ValidRule(RuleOf(tok, d, was))
    ensures Matches(RuleOf(tok, d, was), buf) <==> |tok| < COMM_LEN && tok <= name
  {
    var r := RuleOf(tok, d, was);
    assert r.comm[..r.len] == tok[..r.len];
    if |tok| > |name| {
      assert buf[..r.len][|name|] == '\0' && tok[..r.len][|name|] != '\0';
    } else {
      assert buf[..|tok|] == buf[..|name|][..|tok|];
    }
  }

  lemma {:induction false} NonEmptyKeeps(fs: seq<string>)
    requires forall i :: 0 <= i < |fs| ==> NoNul(fs[i])
    ensures forall i :: 0 <= i < |NonEmpty(fs)| ==> NonEmpty(fs)[i] != "" && NoNul(NonEmpty(fs)[i])
  {
    if fs != [] {
      NonEmptyKeeps(fs[1..]);
    }
  }

  lemma TokensClean(list: Option<string>)
    requires list.Some? ==> NoNul(list.value)
    ensures forall i :: 0 <= i < |TokensOf(list)| ==> TokensOf(list)[i] != "" && NoNul(TokensOf(list)[i])
  {
    if list.Some? {
      FieldsFree(list.value, ',', '\0');
      NonEmptyKeeps(Fields(list.value, ','));
    }
  }

  /** Scanning slots that hold `rules` from slot `k` on, then disabled ones. */
  lemma {:induction false} ScanIsFirstPrefix(t: seq<CommRule>, rules: seq<(string, Dom)>, buf: CommBuf, name: string,
                                             k: nat)
    requires ValidTable(t) && k <= |rules| <= |t|
    requires forall i :: 0 <= i < |rules| ==>
               t[i].domain == rules[i].1
               && (Matches(t[i], buf) <==> |rules[i].0| < COMM_LEN && rules[i].0 <= name)
    requires forall i :: |rules| <= i < |t| ==> t[i].len == 0
    ensures FirstMatch(t, buf, k) == FirstPrefix(rules[k..], name)
    decreases |rules| - k
  {
    if k < |rules| {
      ScanIsFirstPrefix(t, rules, buf, name, k + 1);
      assert rules[k..][1..] == rules[k + 1..];
    } else {
      assert FirstMatch(t, buf, k).None?;
    }
  }

  /** Slot `i` of the table stands for rule `i`. */
  lemma RuleAt(bigComm: Option<string>, littleComm: Option<string>, buf: CommBuf, name: string, i: nat)
    requires bigComm.Some? ==> NoNul(bigComm.value)
    requires littleComm.Some? ==> NoNul(littleComm.value)
    requires |Rules(bigComm, littleComm)| <= MAX_COMM_RULES && Holds(buf, name) && i < |Rules(bigComm, littleComm)|
    ensures var t, rule := TableOf(bigComm, littleComm), Rules(bigComm, littleComm)[i];
            t[i].domain == rule.1 && (Matches(t[i], buf) <==> |rule.0| < COMM_LEN && rule.0 <= name)
  {
    TokensClean(bigComm);
    TokensClean(littleComm);
    var b, l := TokensOf(bigComm), TokensOf(littleComm);
    var t, t1 := TableOf(bigComm, littleComm), Fill(BlankTable(), 0, b, Big);
    if i < |b| {
      assert t[i] == t1[i] == RuleOf(b[i], Big, BlankTable()[i]);
      RuleMeansPrefix(b[i], Big, BlankTable()[i], buf, name);
    } else {
      var j := i - |b|;
      assert t[i] == RuleOf(l[j], Little, t1[i]);
      RuleMeansPrefix(l[j], Little, t1[i], buf, name);
    }
  }

  /** End to end: classifying a name by the table built from the two lists gives the domain of the first
      listed token that is a prefix of the name, whatever bytes follow the name in the buffer. */
  lemma ClassifiesByFirstPrefix(bigComm: Option<string>, littleComm: Option<string>, buf: CommBuf, name: string)
    requires bigComm.Some? ==> NoNul(bigComm.value)
    requires littleComm.Some? ==> NoNul(littleComm.value)
    requires |Rules(bigComm, littleComm)| <= MAX_COMM_RULES && Holds(buf, name)
    ensures FirstMatch(TableOf(bigComm, littleComm), buf, 0) == FirstPrefix(Rules(bigComm, littleComm), name)
  {
    var t, rules := TableOf(bigComm, littleComm), Rules(bigComm, littleComm);
    forall i | 0 <= i < |rules|
      ensures t[i].domain == rules[i].1 && (Matches(t[i], buf) <==> |rules[i].0| < COMM_LEN && rules[i].0 <= name)
    {
      RuleAt(bigComm, littleComm, buf, name, i);
    }
    ScanIsFirstPrefix(t, rules, buf, name, 0);
    assert rules[0..] == rules;
  }

  /** A token that some earlier usable token is a prefix of never decides anything: dropping it changes
      no classification. */
  lemma {:induction false} ShadowedTokenIsDead(rules: seq<(string, Dom)>, i: nat, j: nat, name: string)
    requires i < j < |rules| && |rules[i].0| < COMM_LEN && rules[i].0 <= rules[j].0
    ensures FirstPrefix(rules[..j] + rules[j + 1..], name) == FirstPrefix(rules, name)
    decreases |rules|
  {
    var rest := rules[..j] + rules[j + 1..];
    assert rest[0] == rules[0];
    assert rest[1..] == rules[1..][..j - 1] + rules[1..][j..];
    if i > 0 {
      ShadowedTokenIsDead(rules[1..], i - 1, j - 1, name);
    } else if rules[0].0 <= name {
    } else {
      SkipUseless(rules[1..], j - 1, name);
    }
  }

  /** Dropping a token that does not match the name changes nothing. */
  lemma {:induction false} SkipUseless(rules: seq<(string, Dom)>, j: nat, name: string)
    requires j < |rules| && !(|rules[j].0| < COMM_LEN && rules[j].0 <= name)
    ensures FirstPrefix(rules[..j] + rules[j + 1..], name) == FirstPrefix(rules, name)
    decreases |rules|
  {
    var rest := rules[..j] + rules[j + 1..];
    if j == 0 {
      assert rest == rules[1..];
    } else {
      assert rest[0] == rules[0];
      assert rest[1..] == rules[1..][..j - 1] + rules[1..][j..];
      SkipUseless(rules[1..], j - 1, name);
    }
  }
}
