/**
 Byte strings as bolt and the label handlers use them: prefixes, the first
 occurrence of a separator, and bolt's key order. A Go string is modelled as a
 Dafny string whose characters stand for its bytes.
 */
module Bytes {

  /** Content, and the name it has by its digest. */
  type Data = seq<bv8>
  type Digest = string

  datatype Option<+T> = None | Some(value: T)

  datatype Result<+T> = Ok(value: T) | Err(error: string)

  predicate HasPrefix(s: string, p: string) {
    |p| <= |s| && s[..|p|] == p
  }

  /** The byte order in which a bolt cursor visits keys. */
  predicate Less(a: string, b: string) {
    b != [] && (a == [] || a[0] < b[0] || (a[0] == b[0] && Less(a[1..], b[1..])))
  }

  ghost predicate Sorted(keys: seq<string>) {
    forall i, j :: 0 <= i < j < |keys| ==> Less(keys[i], keys[j])
  }

  /** Position of the first `c` in `s`, or |s| when there is none. */
  function IndexOf(s: string, c: char): (i: nat)
    ensures i <= |s|
    ensures c !in s[..i]
    ensures i < |s| ==> s[i] == c
  {
    if s == [] || s[0] == c then 0 else
      var j := IndexOf(s[1..], c);
      assert s[..1 + j] == [s[0]] + s[1..][..j];
      1 + j
  }

  /** strings.Cut: what stands before and after the first `c`. */
  function Before(s: string, c: char): (r: string)
    ensures c !in r && HasPrefix(s, r)
  {
    s[..IndexOf(s, c)]
  }

  function After(s: string, c: char): string {
    var i := IndexOf(s, c);
    if i < |s| then s[i + 1..] else ""
  }

  lemma {:induction false} FirstIndex(s: string, c: char, n: nat)
    requires n < |s| && s[n] == c && forall i :: 0 <= i < n ==> s[i] != c
    ensures IndexOf(s, c) == n
    decreases n
  {
    if n > 0 {
      FirstIndex(s[1..], c, n - 1);
    }
  }

  /** Cutting `a c b` at `c` gives back both halves when `a` has no `c`. */
  lemma CutJoin(a: string, c: char, b: string)
    requires c !in a
    ensures c in a + [c] + b
    ensures Before(a + [c] + b, c) == a && After(a + [c] + b, c) == b
  {
    var s := a + [c] + b;
    assert s[|a|] == c;
    assert forall i :: 0 <= i < |a| ==> s[i] == a[i] != c;
    FirstIndex(s, c, |a|);
  }

  lemma {:induction false} LessTransitive(a: string, b: string, c: string)
    requires Less(a, b) && Less(b, c)
    ensures Less(a, c)
    decreases |a|
  {
    if a != [] && a[0] == b[0] && b[0] == c[0] {
      LessTransitive(a[1..], b[1..], c[1..]);
    }
  }

  lemma {:induction false} LessTotal(a: string, b: string)
    ensures a == b || Less(a, b) || Less(b, a)
    decreases |a|
  {
    if a != [] && b != [] && a[0] == b[0] {
      LessTotal(a[1..], b[1..]);
      assert a == [a[0]] + a[1..] && b == [b[0]] + b[1..];
    }
  }

  lemma {:induction false} LessIrreflexive(a: string)
    ensures !Less(a, a)
    decreases |a|
  {
    if a != [] {
      LessIrreflexive(a[1..]);
    }
  }

  /** A key that has `p` as a prefix never sorts before `p`, so a seek to `p` does not skip it. */
  lemma {:induction false} PrefixNotLess(k: string, p: string)
    requires HasPrefix(k, p)
    ensures !Less(k, p)
    decreases |p|
  {
    if p != [] {
      assert k[0] == p[0];
      assert k[1..][..|p| - 1] == p[1..];
      PrefixNotLess(k[1..], p[1..]);
    }
  }

  /** Keys that share a prefix are contiguous: whatever sorts between `p` and a key with prefix `p` has it too. */
  lemma {:induction false} PrefixContiguous(p: string, k: string, k': string)
    requires HasPrefix(k', p) && !Less(k, p) && Less(k, k')
    ensures HasPrefix(k, p)
    decreases |p|
  {
    if p != [] {
      assert k'[0] == p[0];
      assert k'[1..][..|p| - 1] == p[1..];
      PrefixContiguous(p[1..], k[1..], k'[1..]);
      assert k[..|p|] == [k[0]] + k[1..][..|p| - 1];
      assert p == [p[0]] + p[1..];
    }
  }
}
