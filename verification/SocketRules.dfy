/** The socket(2) rules of the default seccomp profile, compressed from a list of allowed socket domains. */
module SocketRules {
  const MAX_UINT64 := 0xFFFF_FFFF_FFFF_FFFF

  newtype uint64 = x: int | 0 <= x <= MAX_UINT64

  const AF_UNIX: uint64 := 1

  /**
   The allowed domains in the order of their declaration, AF_UNIX to AF_MCTP without
   AF_ALG (38) and AF_VSOCK (40).
   */
  const ALLOWED: seq<uint64> := [
    1, 2, 3, 4, 5, 6, 7, 8, 9, 10, 11, 12, 13, 14, 15, 16, 17, 18, 19, 20, 21, 22,
    23, 24, 25, 26, 27, 28, 29, 30, 31, 32, 33, 34, 35, 36, 37, 39, 41, 42, 43, 44, 45]

  /** An allow rule on the first argument. */
  datatype Rule = LessThan(value: uint64) | EqualTo(value: uint64)

  predicate Matches(r: Rule, v: uint64) {
    match r
    case LessThan(x) => v < x
    case EqualTo(x) => v == x
  }

  /** Rules for one syscall are alternatives. */
  ghost predicate Allows(rules: seq<Rule>, v: uint64) {
    exists r :: r in rules && Matches(r, v)
  }

  /** Addition wraps around. */
  function Succ(v: uint64): uint64 {
    if v as int == MAX_UINT64 then 0 else v + 1
  }

  /** The list starts with AF_UNIX and the domain after it, so there is something to collapse. */
  predicate Collapses(domains: seq<uint64>) {
    |domains| > 1 && domains[0] == AF_UNIX && domains[1] == Succ(domains[0])
  }

  /**
   socketSyscallsForDomains, for any list that is shorter than 2^64 - 1, sorted or
   not. Only AF_UNSPEC (0), which cannot be created, may be let through without
   being listed.
   */
  method SocketSyscallsForDomains(domains: seq<uint64>) returns (rules: seq<Rule>)
    requires |domains| < MAX_UINT64
    ensures forall v: uint64 :: v != 0 ==> (Allows(rules, v) <==> v in domains)
    ensures Allows(rules, 0) <==> 0 in domains || Collapses(domains)
    ensures if Collapses(domains) then |rules| < |domains| else |rules| == |domains|
  {
    rules := [];
    var rest := domains;
    ghost var last := 0;
    if Collapses(domains) {
      var lastDomain := 1;
      while lastDomain + 1 < |domains| && domains[lastDomain + 1] == Succ(domains[lastDomain])
        invariant 1 <= lastDomain < |domains|
        invariant forall i :: 0 <= i <= lastDomain ==> domains[i] as int == i + 1
      {
        lastDomain := lastDomain + 1;
      }
      rules := [LessThan(Succ(domains[lastDomain]))];
      rest := domains[lastDomain + 1..];
      last := lastDomain + 1;
    }
    ghost var first := rules;
    var i := 0;
    while i < |rest|
      invariant 0 <= i <= |rest|
      invariant rules == first + Equals(rest[..i])
    {
      EqualsLast(rest, i);
      rules := rules + [EqualTo(rest[i])];
      i := i + 1;
    }
    assert rest[..i] == rest;
    RulesExact(domains, last);
  }

  function Equals(domains: seq<uint64>): seq<Rule> {
    seq(|domains|, i requires 0 <= i < |domains| => EqualTo(domains[i]))
  }

  lemma EqualsLast(domains: seq<uint64>, i: nat)
    requires i < |domains|
    ensures Equals(domains[..i + 1]) == Equals(domains[..i]) + [EqualTo(domains[i])]
  {
  }

  lemma EqualsExact(domains: seq<uint64>, v: uint64)
    ensures Allows(Equals(domains), v) <==> v in domains
  {
    if v in domains {
      var i :| 0 <= i < |domains| && domains[i] == v;
      assert EqualTo(v) in Equals(domains) && Matches(EqualTo(v), v) by {
        assert Equals(domains)[i] == EqualTo(v);
      }
    }
  }

  /** `n` leading domains 1 .. n are one rule, the others one each; n is 0 when nothing is collapsed. */
  ghost function Compressed(domains: seq<uint64>, n: nat): seq<Rule>
    requires n <= |domains| && n < MAX_UINT64
  {
    (if n == 0 then [] else [LessThan((n + 1) as uint64)]) + Equals(domains[n..])
  }

  lemma RulesExact(domains: seq<uint64>, n: nat)
    requires n <= |domains| && n < MAX_UINT64
    requires forall i :: 0 <= i < n ==> domains[i] as int == i + 1
    ensures forall v: uint64 :: v != 0 ==> (Allows(Compressed(domains, n), v) <==> v in domains)
    ensures Allows(Compressed(domains, n), 0) <==> 0 in domains || n > 0
  {
    var rules, rest := Compressed(domains, n), domains[n..];
    forall v: uint64 ensures Allows(rules, v) <==> v in domains || (v == 0 && n > 0) {
      EqualsExact(rest, v);
      assert v in domains <==> v in domains[..n] || v in rest by {
        assert domains == domains[..n] + rest;
      }
      if v as int <= n && n > 0 {
        assert rules[0] == LessThan((n + 1) as uint64) && rules[0] in rules && Matches(rules[0], v);
        if v != 0 {
          assert domains[v as int - 1] == v;
        }
      } else if v in rest {
        var r :| r in Equals(rest) && Matches(r, v);
        assert r in rules;
      }
    }
  }

  // ---- socketSyscalls ----

  ghost predicate Sorted(s: seq<uint64>) {
    forall i, j :: 0 <= i < j < |s| ==> s[i] <= s[j]
  }

  lemma SortedEmpty()
    ensures Sorted([])
  {
  }

  lemma InsertSorted(s: seq<uint64>, i: nat, v: uint64)
    requires Sorted(s) && i <= |s| && (forall j :: 0 <= j < i ==> s[j] <= v) && (i < |s| ==> v < s[i])
    ensures Sorted(s[..i] + [v] + s[i..])
  {
    var t := s[..i] + [v] + s[i..];
    forall j, k | 0 <= j < k < |t| ensures t[j] <= t[k] {
      var x := if j < i then s[j] else if j == i then v else s[j - 1];
      var y := if k < i then s[k] else if k == i then v else s[k - 1];
      assert t[j] == x && t[k] == y;
    }
  }

  lemma InsertBag(s: seq<uint64>, i: nat, v: uint64)
    requires i <= |s|
    ensures multiset(s[..i] + [v] + s[i..]) == multiset(s) + multiset{v}
  {
    assert s == s[..i] + s[i..];
  }

  /** slices.Sort of a clone. */
  method Sort(domains: seq<uint64>) returns (s: seq<uint64>)
    ensures Sorted(s) && multiset(s) == multiset(domains)
  {
    hide Sorted;
    s := [];
    SortedEmpty();
    for n := 0 to |domains|
      invariant Sorted(s) && multiset(s) == multiset(domains[..n])
    {
      var i := 0;
      while i < |s| && s[i] <= domains[n]
        invariant 0 <= i <= |s|
        invariant forall j :: 0 <= j < i ==> s[j] <= domains[n]
      {
        i := i + 1;
      }
      InsertSorted(s, i, domains[n]);
      InsertBag(s, i, domains[n]);
      assert domains[..n + 1] == domains[..n] + [domains[n]];
      s := s[..i] + [domains[n]] + s[i..];
    }
    assert domains[..|domains|] == domains;
  }

  lemma AllowedExact()
    ensures forall v: uint64 :: v in ALLOWED <==> 1 <= v <= 45 && v != 38 && v != 40
    ensures |ALLOWED| == 43
  {
  }

  /** Sorts a list of domains and compresses it. */
  method Compress(allowed: seq<uint64>) returns (rules: seq<Rule>)
    requires |allowed| < MAX_UINT64
    ensures forall v: uint64 :: v != 0 ==> (Allows(rules, v) <==> v in allowed)
  {
    var domains := Sort(allowed);
    assert |multiset(domains)| == |multiset(allowed)|;
    rules := SocketSyscallsForDomains(domains);
    forall v: uint64 ensures v in domains <==> v in allowed {
      assert v in domains <==> v in multiset(domains);
      assert v in allowed <==> v in multiset(allowed);
    }
  }

  /** The default profile lets through the domains 1 to 45 but AF_ALG (38) and AF_VSOCK (40), and none above. */
  method SocketSyscalls() returns (rules: seq<Rule>)
    ensures forall v: uint64 :: v != 0 ==> (Allows(rules, v) <==> 1 <= v <= 45 && v != 38 && v != 40)
  {
    AllowedExact();
    rules := Compress(ALLOWED);
  }
}
