/** pkg/gc: the tricolor mark over resource nodes. */
module Tricolor {
  import opened Bytes
  import opened Records
  import opened Reachability

  ghost function SetOf(s: seq<Node>): iset<Node> {
    iset n | n in s
  }

  /** The nodes a reference callback sends for a node. */
  ghost function Targets(refs: Node -> Result<set<Node>>): Node -> iset<Node> {
    n => match refs(n) case Ok(v) => iset m | m in v case Err(_) => iset{}
  }

  ghost function Stripped(s: set<Node>): set<Node> {
    set n | n in s :: Strip(n)
  }

  /** The mark left on `n`: some reachable node has its low five bits. */
  ghost predicate Marked(roots: iset<Node>, succ: Node -> iset<Node>, n: Node) {
    exists m :: Reach(roots, succ, m) && Strip(m) == n
  }

  /**
   Marks what is reachable. `universe` is any finite set that holds the roots
   and whatever they lead to; it bounds the walk and is not part of the result.
   */
  method Mark(roots: seq<Node>, refs: Node -> Result<set<Node>>, ghost universe: set<Node>)
    returns (r: Result<set<Node>>)
    requires forall n :: n in roots ==> n in universe
    requires forall n, m :: n in universe && m in Targets(refs)(n) ==> m in universe
    ensures r.Ok? ==> forall n :: n in r.value <==> Marked(SetOf(roots), Targets(refs), n)
    ensures r.Err? <==> exists m :: Reach(SetOf(roots), Targets(refs), m) && refs(m).Err?
  {
    ghost var reach := iset n | Reach(SetOf(roots), Targets(refs), n);
    forall n | n in roots ensures n in reach {
      RootReach(SetOf(roots), Targets(refs), n);
    }
    forall n, m | n in reach && m in Targets(refs)(n) ensures m in reach {
      StepReach(SetOf(roots), Targets(refs), n, m);
    }
    ghost var seen: set<Node>;
    r, seen := Walk(roots, refs, universe, reach);
    if r.Ok? {
      Exact(roots, refs, seen);
    }
  }

  /**
   The loop. It follows unstripped nodes; the bits above RESOURCE_MAX are
   dropped only as a node turns black. It never leaves a closed set that holds
   the roots, and what it has seen in the end is itself closed.
   */
  method Walk(roots: seq<Node>, refs: Node -> Result<set<Node>>, ghost universe: set<Node>, ghost closed: iset<Node>)
    returns (r: Result<set<Node>>, ghost seen: set<Node>)
    requires forall n :: n in roots ==> n in universe
    requires forall n, m :: n in universe && m in Targets(refs)(n) ==> m in universe
    requires forall n :: n in roots ==> n in closed
    requires forall n, m :: n in closed && m in Targets(refs)(n) ==> m in closed
    ensures r.Err? ==> exists m :: m in closed && refs(m).Err?
    ensures r.Ok? ==>
      (forall n :: n in roots ==> n in seen) && (forall n :: n in seen ==> n in closed && Done(refs, seen, n))
    ensures r.Ok? ==> r.value == Stripped(seen)
  {
    var grays := roots;
    var notWhite := set n | n in roots;
    var reachable: set<Node> := {};
    ghost var black: set<Node> := {};
    while grays != []
      invariant notWhite <= universe && Inv(roots, refs, closed, grays, notWhite, black)
      invariant reachable == Stripped(black)
      decreases |universe - notWhite|, |grays|
    {
      var id, rest := grays[|grays| - 1], grays[..|grays| - 1];
      SplitLast(grays);
      if refs(id).Err? {
        return Err(refs(id).error), notWhite;
      }
      var rs := refs(id).value;
      assert forall m :: m in rs ==> m in universe by { assert Targets(refs)(id) == iset m | m in rs; }
      var grays', notWhite' := MarkGray(rs, rest, notWhite);
      StrippedAdd(black, id);
      StepKeeps(roots, refs, closed, rest, notWhite, black, id, grays', notWhite');
      if notWhite' != notWhite {
        SmallerSet(universe - notWhite', universe - notWhite);
      }
      grays, notWhite, reachable, black := grays', notWhite', reachable + {Strip(id)}, black + {id};
    }
    assert black == notWhite;
    return Ok(reachable), notWhite;
  }

  /** A black node's references are all seen. */
  ghost predicate Done(refs: Node -> Result<set<Node>>, seen: set<Node>, n: Node) {
    refs(n).Ok? && forall m :: m in Targets(refs)(n) ==> m in seen
  }

  ghost predicate Inv(roots: seq<Node>, refs: Node -> Result<set<Node>>, closed: iset<Node>,
                      grays: seq<Node>, seen: set<Node>, black: set<Node>) {
    && (forall n :: n in roots ==> n in seen)
    && black <= seen
    && (forall n :: n in grays ==> n in seen)
    && (forall n :: n in seen ==> n in closed && (n in grays || n in black))
    && (forall n :: n in black ==> Done(refs, seen, n))
  }

  lemma StepKeeps(roots: seq<Node>, refs: Node -> Result<set<Node>>, closed: iset<Node>,
                  grays: seq<Node>, seen: set<Node>, black: set<Node>,
                  id: Node, grays': seq<Node>, seen': set<Node>)
    requires forall n, m :: n in closed && m in Targets(refs)(n) ==> m in closed
    requires Inv(roots, refs, closed, grays + [id], seen, black) && refs(id).Ok?
    requires seen' == seen + refs(id).value
    requires forall n :: n in grays' <==> n in grays || (n in refs(id).value && n !in seen)
    ensures Inv(roots, refs, closed, grays', seen', black + {id})
  {
    assert id in grays + [id];
    assert Targets(refs)(id) == iset m | m in refs(id).value;
    forall n | n in seen' ensures n in closed && (n in grays' || n in black + {id}) {
      if n in seen && n != id && n !in black {
        assert n in grays + [id];
      }
    }
  }

  lemma StrippedAdd(s: set<Node>, n: Node)
    ensures Stripped(s + {n}) == Stripped(s) + {Strip(n)}
  {
  }

  lemma SplitLast(s: seq<Node>)
    requires s != []
    ensures s == s[..|s| - 1] + [s[|s| - 1]]
  {
  }

  lemma SmallerSet(a: set<Node>, b: set<Node>)
    requires a < b
    ensures |a| < |b|
  {
    assert b == a + (b - a);
  }

  /** Marks every white target gray, in whatever order the references were sent. */
  method MarkGray(rs: set<Node>, grays0: seq<Node>, seen0: set<Node>) returns (grays: seq<Node>, seen: set<Node>)
    ensures seen == seen0 + rs
    ensures forall n :: n in grays <==> n in grays0 || (n in rs && n !in seen0)
    ensures seen == seen0 ==> grays == grays0
  {
    grays, seen := grays0, seen0;
    var todo := rs;
    while todo != {}
      invariant todo <= rs && seen == seen0 + (rs - todo)
      invariant forall n :: n in grays <==> n in grays0 || (n in rs - todo && n !in seen0)
      invariant seen == seen0 ==> grays == grays0
    {
      var target :| target in todo;
      if target !in seen {
        grays := grays + [target];
        seen := seen + {target};
      }
      todo := todo - {target};
    }
  }

  /** When nothing is gray any more, all that is reachable has been seen. */
  lemma Exact(roots: seq<Node>, refs: Node -> Result<set<Node>>, seen: set<Node>)
    requires (forall n :: n in roots ==> n in seen)
    requires forall n :: n in seen ==> refs(n).Ok? && forall m :: m in Targets(refs)(n) ==> m in seen
    ensures forall n :: Reach(SetOf(roots), Targets(refs), n) ==> n in seen
  {
    var inv := iset n | n in seen;
    forall n | Reach(SetOf(roots), Targets(refs), n) ensures n in seen {
      ReachInduct(SetOf(roots), Targets(refs), inv, n);
    }
  }
}
