/** Reachability from a set of roots along a successor function, by paths. */
module Reachability {

  ghost predicate IsPath<T(!new)>(roots: iset<T>, succ: T -> iset<T>, p: seq<T>) {
    p != [] && p[0] in roots && forall i, j :: 0 <= i < j < |p| && j == i + 1 ==> p[j] in succ(p[i])
  }

  ghost predicate Reach<T(!new)>(roots: iset<T>, succ: T -> iset<T>, n: T) {
    exists p :: IsPath(roots, succ, p) && p[|p| - 1] == n
  }

  lemma RootReach<T(!new)>(roots: iset<T>, succ: T -> iset<T>, n: T)
    requires n in roots
    ensures Reach(roots, succ, n)
  {
    assert IsPath(roots, succ, [n]);
  }

  lemma StepReach<T(!new)>(roots: iset<T>, succ: T -> iset<T>, n: T, m: T)
    requires Reach(roots, succ, n) && m in succ(n)
    ensures Reach(roots, succ, m)
  {
    var p :| IsPath(roots, succ, p) && p[|p| - 1] == n;
    var q := p + [m];
    assert IsPath(roots, succ, q) && q[|q| - 1] == m;
  }

  /** Whatever holds of the roots and is kept by every edge holds of everything reachable. */
  lemma ReachInduct<T(!new)>(roots: iset<T>, succ: T -> iset<T>, inv: iset<T>, n: T)
    requires forall r :: r in roots ==> r in inv
    requires forall x, y :: x in inv && y in succ(x) ==> y in inv
    requires Reach(roots, succ, n)
    ensures n in inv
  {
    var p :| IsPath(roots, succ, p) && p[|p| - 1] == n;
    PathInduct(roots, succ, inv, p);
  }

  lemma {:induction false} PathInduct<T(!new)>(roots: iset<T>, succ: T -> iset<T>, inv: iset<T>, p: seq<T>)
    requires forall r :: r in roots ==> r in inv
    requires forall x, y :: x in inv && y in succ(x) ==> y in inv
    requires IsPath(roots, succ, p)
    ensures p[|p| - 1] in inv
    decreases |p|
  {
    if |p| > 1 {
      PathInduct(roots, succ, inv, p[..|p| - 1]);
      assert p[|p| - 1] in succ(p[|p| - 2]);
    }
  }
}
