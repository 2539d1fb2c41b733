/**
 The tree of descriptors that a handler unfolds from a list of roots, and the
 synchronous Walk over it.
 */
module ImageTree {
  import opened Bytes

  datatype Descriptor = Descriptor(mediaType: string, digest: string, size: int, annotations: map<string, string>)

  datatype Error = Exhausted | Cancelled | HandlerFailed(message: string)

  /** What a handler returns: the children, ErrSkipDesc, or another error. */
  datatype Outcome = Children(descs: seq<Descriptor>) | Skip | Fail(error: Error)

  type Handler = Descriptor -> Outcome

  const MAX_REFERENCES := 10_000

  function Kids(h: Handler, d: Descriptor): seq<Descriptor> {
    match h(d)
    case Children(descs) => descs
    case _ => []
  }

  /** Everything under `descs` to depth n, each reference counted. */
  ghost function Nodes(h: Handler, descs: seq<Descriptor>, n: nat): multiset<Descriptor>
    decreases n, |descs|
  {
    if descs == [] then multiset{} else
      multiset{descs[0]} + (if n == 0 then multiset{} else Nodes(h, Kids(h, descs[0]), n - 1)) + Nodes(h, descs[1..], n)
  }

  /** Nothing under `descs` lies at depth n or below. */
  ghost predicate Bounded(h: Handler, descs: seq<Descriptor>, n: nat)
    decreases n
  {
    descs == [] || (n > 0 && forall d :: d in descs ==> Bounded(h, Kids(h, d), n - 1))
  }

  ghost predicate Finite(h: Handler, descs: seq<Descriptor>) {
    exists n: nat :: Bounded(h, descs, n)
  }

  /** The whole tree; a descriptor referenced twice is in it twice. */
  ghost function Tree(h: Handler, descs: seq<Descriptor>): multiset<Descriptor>
    requires Finite(h, descs)
  {
    var n: nat :| Bounded(h, descs, n);
    Nodes(h, descs, n)
  }

  lemma {:induction false} BoundedDeeper(h: Handler, descs: seq<Descriptor>, n: nat, m: nat)
    requires Bounded(h, descs, n) && n <= m
    ensures Bounded(h, descs, m)
    decreases n
  {
    if descs != [] {
      forall d | d in descs ensures Bounded(h, Kids(h, d), m - 1) {
        BoundedDeeper(h, Kids(h, d), n - 1, m - 1);
      }
    }
  }

  lemma {:induction false} NodesAgree(h: Handler, descs: seq<Descriptor>, n: nat, m: nat)
    requires Bounded(h, descs, n) && Bounded(h, descs, m)
    ensures Nodes(h, descs, n) == Nodes(h, descs, m)
    decreases n, |descs|
  {
    if descs != [] {
      assert descs[0] in descs;
      NodesAgree(h, Kids(h, descs[0]), n - 1, m - 1);
      assert forall d :: d in descs[1..] ==> d in descs;
      NodesAgree(h, descs[1..], n, m);
    }
  }

  lemma NodesNone(h: Handler, n: nat)
    ensures Nodes(h, [], n) == multiset{}
  {
  }

  lemma NodesCons(h: Handler, descs: seq<Descriptor>, n: nat)
    requires descs != []
    ensures Nodes(h, descs, n) == Nodes(h, [descs[0]], n) + Nodes(h, descs[1..], n)
  {
    assert [descs[0]][1..] == [];
  }

  lemma {:induction false} NodesAppend(h: Handler, a: seq<Descriptor>, b: seq<Descriptor>, n: nat)
    ensures Nodes(h, a + b, n) == Nodes(h, a, n) + Nodes(h, b, n)
    decreases |a|
  {
    hide Nodes;
    if a == [] {
      assert a + b == b && Nodes(h, [], n) == multiset{} by { NodesNone(h, n); }
    } else {
      NodesAppend(h, a[1..], b, n);
      NodesCons(h, a, n);
      NodesCons(h, a + b, n);
      assert (a + b)[0] == a[0] && (a + b)[1..] == a[1..] + b;
    }
  }

  lemma TreeIs(h: Handler, descs: seq<Descriptor>, n: nat)
    requires Bounded(h, descs, n)
    ensures Finite(h, descs) && Tree(h, descs) == Nodes(h, descs, n)
  {
    var m: nat :| Bounded(h, descs, m) && Tree(h, descs) == Nodes(h, descs, m);
    NodesAgree(h, descs, n, m);
  }

  lemma TreeEmpty(h: Handler)
    ensures Finite(h, []) && Tree(h, []) == multiset{}
  {
    TreeIs(h, [], 0);
  }

  /** The tree of a list is the sum of its parts' trees. */
  lemma TreeAppend(h: Handler, a: seq<Descriptor>, b: seq<Descriptor>)
    ensures Finite(h, a + b) <==> Finite(h, a) && Finite(h, b)
    ensures Finite(h, a + b) ==> Tree(h, a + b) == Tree(h, a) + Tree(h, b)
  {
    if Finite(h, a + b) {
      var n: nat :| Bounded(h, a + b, n);
      assert Bounded(h, a, n) && Bounded(h, b, n);
      TreeIs(h, a, n);
      TreeIs(h, b, n);
      TreeIs(h, a + b, n);
      NodesAppend(h, a, b, n);
    }
    if Finite(h, a) && Finite(h, b) {
      var n: nat, m: nat :| Bounded(h, a, n) && Bounded(h, b, m);
      var k := if n < m then m else n;
      BoundedDeeper(h, a, n, k);
      BoundedDeeper(h, b, m, k);
      assert Bounded(h, a + b, k);
    }
  }

  lemma TreeOne(h: Handler, d: Descriptor)
    ensures Finite(h, [d]) <==> Finite(h, Kids(h, d))
    ensures Finite(h, [d]) ==> Tree(h, [d]) == multiset{d} + Tree(h, Kids(h, d))
  {
    if Finite(h, [d]) {
      var n: nat :| Bounded(h, [d], n);
      assert d in [d];
      TreeIs(h, [d], n);
      TreeIs(h, Kids(h, d), n - 1);
      assert [d][1..] == [];
    }
    if Finite(h, Kids(h, d)) {
      var n: nat :| Bounded(h, Kids(h, d), n);
      assert Bounded(h, [d], n + 1);
    }
  }

  lemma {:induction false} TreeSize(h: Handler, descs: seq<Descriptor>)
    requires Finite(h, descs)
    ensures |Tree(h, descs)| >= |descs|
    decreases |descs|
  {
    if descs != [] {
      assert descs == [descs[0]] + descs[1..];
      TreeAppend(h, [descs[0]], descs[1..]);
      TreeOne(h, descs[0]);
      TreeSize(h, descs[1..]);
    }
  }

  /** The tree is finite, fits beside `count` references already taken, and no handler fails in it. */
  ghost predicate Fine(h: Handler, descs: seq<Descriptor>, count: nat) {
    && Finite(h, descs)
    && count + |Tree(h, descs)| <= MAX_REFERENCES
    && forall d :: d in Tree(h, descs) ==> !h(d).Fail?
  }

  /** The tree of a list, cut at its i-th descriptor. */
  lemma TreeCut(h: Handler, descs: seq<Descriptor>, i: nat)
    requires i < |descs|
    ensures Finite(h, descs) <==> Finite(h, descs[..i]) && Finite(h, Kids(h, descs[i])) && Finite(h, descs[i + 1..])
    ensures Finite(h, descs) ==>
      && Tree(h, descs) ==
         Tree(h, descs[..i]) + multiset{descs[i]} + Tree(h, Kids(h, descs[i])) + Tree(h, descs[i + 1..])
      && |Tree(h, descs[i + 1..])| >= |descs| - i - 1
    ensures Finite(h, descs[..i]) && Finite(h, Kids(h, descs[i])) ==>
      && Finite(h, descs[..i + 1])
      && Tree(h, descs[..i + 1]) == Tree(h, descs[..i]) + multiset{descs[i]} + Tree(h, Kids(h, descs[i]))
  {
    assert descs == descs[..i + 1] + descs[i + 1..];
    assert descs[..i + 1] == descs[..i] + [descs[i]];
    TreeAppend(h, descs[..i + 1], descs[i + 1..]);
    TreeAppend(h, descs[..i], [descs[i]]);
    TreeOne(h, descs[i]);
    if Finite(h, descs) {
      TreeSize(h, descs[i + 1..]);
    }
  }

  /** A walk over `descs`, `i` of them done, that has counted `rc` references since it stood at `count`. */
  ghost predicate Midway(h: Handler, descs: seq<Descriptor>, i: nat, count: nat, rc: nat) {
    && i <= |descs| && Finite(h, descs[..i])
    && rc == count + |Tree(h, descs[..i])| + |descs| - i
    && forall d :: d in Tree(h, descs[..i]) ==> !h(d).Fail?
  }

  /** What a walk has handled from `before` on. */
  ghost predicate Handled(h: Handler, descs: seq<Descriptor>, before: multiset<Descriptor>,
                          handled: multiset<Descriptor>) {
    Finite(h, descs) && handled == before + Tree(h, descs)
  }

  lemma MidwayStart(h: Handler, descs: seq<Descriptor>, count: nat, before: multiset<Descriptor>)
    ensures Midway(h, descs, 0, count, count + |descs|) && Handled(h, descs[..0], before, before)
  {
    assert descs[..0] == [];
    TreeEmpty(h);
  }

  /** One more descriptor and its subtree. */
  lemma MidwayStep(h: Handler, descs: seq<Descriptor>, i: nat, count: nat, rc: nat, before: multiset<Descriptor>,
                   handled: multiset<Descriptor>)
    requires i < |descs| && Midway(h, descs, i, count, rc) && Fine(h, Kids(h, descs[i]), rc) && !h(descs[i]).Fail?
    requires Handled(h, descs[..i], before, handled)
    ensures Finite(h, Kids(h, descs[i]))
    ensures var sub := Tree(h, Kids(h, descs[i]));
      && Midway(h, descs, i + 1, count, rc + |sub|)
      && Handled(h, descs[..i + 1], before, handled + multiset{descs[i]} + sub)
  {
    TreeCut(h, descs, i);
  }

  /** A subtree that does not fit, or a descriptor that fails, spoils the whole list. */
  lemma MidwayStops(h: Handler, descs: seq<Descriptor>, i: nat, count: nat, rc: nat)
    requires i < |descs| && Midway(h, descs, i, count, rc)
    requires h(descs[i]).Fail? || !Fine(h, Kids(h, descs[i]), rc)
    ensures !Fine(h, descs, count)
  {
    TreeCut(h, descs, i);
  }

  lemma MidwayEnd(h: Handler, descs: seq<Descriptor>, count: nat, rc: nat, before: multiset<Descriptor>,
                  handled: multiset<Descriptor>)
    requires Midway(h, descs, |descs|, count, rc) && rc <= MAX_REFERENCES && Spent(before, before, count)
    requires Handled(h, descs[..|descs|], before, handled)
    ensures Fine(h, descs, count) && rc == count + |Tree(h, descs)| && handled == before + Tree(h, descs)
    ensures Spent(before, handled, rc)
  {
    assert descs[..|descs|] == descs;
  }

  /** A reference is counted before it is handled. */
  lemma MidwayCount(h: Handler, descs: seq<Descriptor>, i: nat, count: nat, rc: nat, before: multiset<Descriptor>,
                    handled: multiset<Descriptor>)
    requires i < |descs| && Midway(h, descs, i, count, rc) && rc <= MAX_REFERENCES && Spent(before, before, count)
    requires Handled(h, descs[..i], before, handled)
    ensures var more := handled + multiset{descs[i]};
      Spent(before, handled, rc) && Spent(more, more, rc) && count < rc
  {
  }

  lemma TooMany(h: Handler, descs: seq<Descriptor>, count: nat)
    requires count + |descs| > MAX_REFERENCES
    ensures !Fine(h, descs, count)
  {
    if Finite(h, descs) {
      TreeSize(h, descs);
    }
  }

  lemma NoneFine(h: Handler, count: nat)
    requires count <= MAX_REFERENCES
    ensures Fine(h, [], count) && Tree(h, []) == multiset{}
  {
    TreeEmpty(h);
  }

  lemma KidsAre(h: Handler, d: Descriptor)
    ensures h(d).Children? ==> Kids(h, d) == h(d).descs
    ensures !h(d).Children? ==> Kids(h, d) == []
  {
  }

  /** No more than `rc` calls have been made, all of those in `before` among them. */
  ghost predicate Spent(before: multiset<Descriptor>, handled: multiset<Descriptor>, rc: nat) {
    |handled| <= rc <= MAX_REFERENCES && before <= handled
  }

  lemma SpentMore(before: multiset<Descriptor>, mid: multiset<Descriptor>, handled: multiset<Descriptor>, rc: nat,
                  rc': nat)
    requires Spent(before, mid, rc) && Spent(mid, handled, rc')
    ensures Spent(before, handled, rc') && rc' <= MAX_REFERENCES
  {
  }

  /** An error is the limit, or comes from a handler that was called. */
  ghost predicate Explained(h: Handler, handled: multiset<Descriptor>, e: Error) {
    e == Exhausted || exists d :: d in handled && h(d) == Fail(e)
  }

  lemma ExplainedBy(h: Handler, handled: multiset<Descriptor>, e: Error)
    requires e == Exhausted || exists d :: d in handled && h(d) == Fail(e)
    ensures Explained(h, handled, e)
  {
  }

  class Walker {
    var referenceCount: nat
    ghost var handled: multiset<Descriptor>

    constructor ()
      ensures referenceCount == 0 && handled == multiset{}
    {
      referenceCount, handled := 0, multiset{};
    }

    /** One descriptor that has been counted already, and everything below it. */
    method Visit(h: Handler, d: Descriptor) returns (err: Option<Error>)
      requires var more := handled + multiset{d}; Spent(more, more, referenceCount)
      modifies this
      ensures Spent(old(handled), handled, referenceCount)
      ensures err.None? <==> !h(d).Fail? && Fine(h, Kids(h, d), old(referenceCount))
      ensures err.None? ==> handled == old(handled) + multiset{d} + Tree(h, Kids(h, d))
      ensures err.None? ==> referenceCount == old(referenceCount) + |Tree(h, Kids(h, d))|
      ensures err.Some? ==> Explained(h, handled, err.value)
      decreases MAX_REFERENCES - referenceCount, 1
    {
      hide Finite;
      hide Tree;
      hide Fine;
      hide Kids;
      NoneFine(h, referenceCount);
      KidsAre(h, d);
      var outcome := h(d);
      handled := handled + multiset{d};
      match outcome
      case Fail(e) => err := Some(e);
      case Skip => err := None;
      case Children(children) =>
        err := None;
        if |children| > 0 {
          err := Walk(h, children);
        }
    }

    method Walk(h: Handler, descs: seq<Descriptor>) returns (err: Option<Error>)
      requires Spent(handled, handled, referenceCount)
      modifies this
      ensures Spent(old(handled), handled, referenceCount)
      ensures err.None? <==> Fine(h, descs, old(referenceCount))
      ensures err.None? ==>
        handled == old(handled) + Tree(h, descs) && referenceCount == old(referenceCount) + |Tree(h, descs)|
      ensures err.Some? ==> Explained(h, handled, err.value)
      decreases MAX_REFERENCES - referenceCount, 0
    {
      hide Finite;
      hide Tree;
      hide Midway;
      hide Handled;
      hide Fine;
      hide Kids;
      hide Spent;
      hide Explained;
      ghost var count, before := referenceCount, handled;
      if referenceCount + |descs| > MAX_REFERENCES {
        TooMany(h, descs, count);
        ExplainedBy(h, handled, Exhausted);
        return Some(Exhausted);
      }
      referenceCount := referenceCount + |descs|;
      MidwayStart(h, descs, count, before);
      var i := 0;
      while i < |descs|
        invariant 0 <= i <= |descs| && referenceCount <= MAX_REFERENCES
        invariant Midway(h, descs, i, count, referenceCount) && Handled(h, descs[..i], before, handled)
      {
        ghost var rc, sofar := referenceCount, handled;
        MidwayCount(h, descs, i, count, rc, before, sofar);
        err := Visit(h, descs[i]);
        SpentMore(before, sofar, handled, rc, referenceCount);
        if err.Some? {
          MidwayStops(h, descs, i, count, rc);
          return;
        }
        MidwayStep(h, descs, i, count, rc, before, sofar);
        i := i + 1;
      }
      MidwayEnd(h, descs, count, referenceCount, before, handled);
      err := None;
    }
  }

  /**
   Walk succeeds exactly when the tree is finite, its references fit the limit
   and no handler in it fails; then the handler has been called once for each
   reference. It never makes more calls than the limit allows.
   */
  method Walk(h: Handler, descs: seq<Descriptor>) returns (err: Option<Error>, ghost handled: multiset<Descriptor>)
    ensures |handled| <= MAX_REFERENCES
    ensures err.None? <==> Fine(h, descs, 0)
    ensures err.None? ==> handled == Tree(h, descs)
    ensures err.Some? ==> err.value == Exhausted || exists d :: d in handled && h(d) == Fail(err.value)
  {
    hide Fine;
    var w := new Walker();
    err := w.Walk(h, descs);
    handled := w.handled;
  }
}
