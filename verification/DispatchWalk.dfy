/** Dispatch and Walk agree: on the same handler they succeed on the same roots and handle the same references. */
module DispatchWalk {
  import opened Bytes
  import opened ImageTree
  import opened Dispatch

  /** The step's handler outcome is the one `h` gives, and the caller does not cancel. */
  ghost predicate Obeys(h: Handler, s: State, step: Step) {
    && !step.Cancel?
    && (step.Return? && step.i < |s.admitted| ==> step.outcome == h(s.admitted[step.i].desc))
  }

  ghost predicate ObeysAll(h: Handler, s: State, steps: seq<Step>)
    requires Legal(s, steps)
    decreases |steps|
  {
    steps != [] ==> Obeys(h, s, steps[0]) && ObeysAll(h, Apply(s, steps[0]), steps[1..])
  }

  ghost function Descs(items: seq<Item>): seq<Descriptor> {
    seq(|items|, j requires 0 <= j < |items| => items[j].desc)
  }

  /** The items whose children, if any, are themselves among the admitted. */
  ghost function Expanded(s: State): set<nat> {
    set i | i in s.done && !Fault(s.done[i])
  }

  /** An expanded item stands for itself, any other for the whole tree below it. */
  ghost function Weight(h: Handler, item: Item, expanded: bool): multiset<Descriptor>
    requires Finite(h, [item.desc])
  {
    if expanded then multiset{item.desc} else Tree(h, [item.desc])
  }

  ghost predicate AllFinite(h: Handler, items: seq<Item>) {
    forall j :: 0 <= j < |items| ==> Finite(h, [items[j].desc])
  }

  ghost function Sum(h: Handler, items: seq<Item>, expanded: set<nat>): multiset<Descriptor>
    requires AllFinite(h, items)
    decreases |items|
  {
    if items == [] then multiset{} else
      var n := |items| - 1;
      Sum(h, items[..n], expanded) + Weight(h, items[n], n in expanded)
  }

  lemma {:induction false} SumSame(h: Handler, items: seq<Item>, a: set<nat>, b: set<nat>)
    requires AllFinite(h, items) && forall j: nat :: j < |items| ==> (j in a <==> j in b)
    ensures Sum(h, items, a) == Sum(h, items, b)
    decreases |items|
  {
    if items != [] {
      SumSame(h, items[..|items| - 1], a, b);
    }
  }

  /** Expanding an item takes the tree below it out of the sum. */
  lemma {:induction false} SumExpand(h: Handler, items: seq<Item>, a: set<nat>, i: nat)
    requires AllFinite(h, items) && i < |items| && i !in a
    ensures Finite(h, Kids(h, items[i].desc))
    ensures Sum(h, items, a) == Sum(h, items, a + {i}) + Tree(h, Kids(h, items[i].desc))
    decreases |items|
  {
    hide Finite;
    hide Tree;
    hide Kids;
    var n := |items| - 1;
    TreeOne(h, items[i].desc);
    if i == n {
      SumSame(h, items[..n], a, a + {i});
    } else {
      SumExpand(h, items[..n], a, i);
    }
  }

  /** New items that are not expanded add their trees. */
  lemma {:induction false} SumAdmit(h: Handler, items: seq<Item>, more: seq<Item>, a: set<nat>)
    requires AllFinite(h, items) && Finite(h, Descs(more)) && forall i :: i in a ==> i < |items|
    ensures AllFinite(h, items + more)
    ensures Sum(h, items + more, a) == Sum(h, items, a) + Tree(h, Descs(more))
    decreases |more|
  {
    hide Finite;
    hide Tree;
    hide Sum;
    if more == [] {
      assert items + more == items;
      assert Descs(more) == [];
      TreeEmpty(h);
    } else {
      var n := |more| - 1;
      assert Descs(more) == Descs(more[..n]) + [more[n].desc];
      TreeAppend(h, Descs(more[..n]), [more[n].desc]);
      SumAdmit(h, items, more[..n], a);
      assert (items + more)[..|items| + n] == items + more[..n];
      assert items + more == items + more[..n] + [more[n]];
      SumLast(h, items + more[..n], more[n], a);
    }
  }

  lemma SumLast(h: Handler, items: seq<Item>, last: Item, a: set<nat>)
    requires AllFinite(h, items) && Finite(h, [last.desc])
    ensures AllFinite(h, items + [last])
    ensures Sum(h, items + [last], a) == Sum(h, items, a) + Weight(h, last, |items| in a)
  {
    assert (items + [last])[..|items|] == items;
  }

  /** Everything expanded: the sum is the items themselves. */
  lemma {:induction false} SumAll(h: Handler, items: seq<Item>, a: set<nat>)
    requires AllFinite(h, items) && forall j: nat :: j < |items| ==> j in a
    ensures Sum(h, items, a) == multiset(Descs(items))
    decreases |items|
  {
    if items != [] {
      var n := |items| - 1;
      SumAll(h, items[..n], a);
      assert Descs(items) == Descs(items[..n]) + [items[n].desc];
    }
  }

  lemma WeightSize(h: Handler, item: Item, expanded: bool)
    requires Finite(h, [item.desc])
    ensures |Weight(h, item, expanded)| >= 1 && item.desc in Weight(h, item, expanded)
  {
    hide Finite;
    hide Tree;
    TreeOne(h, item.desc);
  }

  /** Each item weighs at least one reference, and is in the sum. */
  lemma {:induction false} SumSize(h: Handler, items: seq<Item>, a: set<nat>)
    requires AllFinite(h, items)
    ensures |Sum(h, items, a)| >= |items|
    ensures forall j :: 0 <= j < |items| ==> items[j].desc in Sum(h, items, a)
    decreases |items|
  {
    hide Finite;
    hide Sum;
    hide Weight;
    if items != [] {
      var n := |items| - 1;
      assert items == items[..n] + [items[n]];
      SumLast(h, items[..n], items[n], a);
      WeightSize(h, items[n], n in a);
      SumSize(h, items[..n], a);
    }
  }

  /** Every finish is the one the handler's outcome leads to, and the children admitted are its children. */
  ghost predicate Matches(h: Handler, s: State) {
    forall i :: i in s.done && i < |s.admitted| ==> Fits(h, s.admitted, s.admitted[i].desc, s.done[i])
  }

  /** If the roots' tree is finite, what has been admitted accounts for all of it. */
  ghost predicate Accounts(h: Handler, roots: seq<Descriptor>, s: State) {
    Finite(h, roots) ==> AllFinite(h, s.admitted) && Sum(h, s.admitted, Expanded(s)) == Tree(h, roots)
  }

  /** If moreover it fits and nothing fails in it, there is no failure to report. */
  ghost predicate Clean(h: Handler, roots: seq<Descriptor>, s: State) {
    && !s.cancelled
    && (Fine(h, roots, 0) ==>
          && s.err.None?
          && (forall i :: i in s.done ==> !Fault(s.done[i]))
          && (forall i :: i in s.ending ==> s.ending[i].None?)
          && s.result != Returned(Some(Exhausted)) && (s.result.Returned? ==> s.result.err.None?))
  }

  lemma MatchesKept(h: Handler, s: State, step: Step)
    requires Enabled(s, step) && Obeys(h, s, step) && Inv(s) && Matches(h, s)
    ensures Matches(h, Apply(s, step))
  {
    hide Permits;
    hide Reported;
    if step.Return? {
      MatchesReturn(h, s, step.i, step.outcome);
    }
  }

  /** The finish `f` of an item `d` is the one that `h` leads to. */
  ghost predicate Fits(h: Handler, items: seq<Item>, d: Descriptor, f: Finish) {
    && (f.Admitted? ==> h(d).Children? && f.first + f.n <= |items|)
    && (f.Admitted? ==> Descs(items[f.first..f.first + f.n]) == Kids(h, d))
    && (f.Skipped? ==> h(d).Skip?)
    && (f.Failed? ==> h(d).Fail?)
  }

  lemma FitsMore(h: Handler, items: seq<Item>, more: seq<Item>, d: Descriptor, f: Finish)
    requires Fits(h, items, d, f)
    ensures Fits(h, items + more, d, f)
  {
    if f.Admitted? {
      assert (items + more)[f.first..f.first + f.n] == items[f.first..f.first + f.n];
    }
  }

  lemma FitsReturn(h: Handler, s: State, i: nat, o: Outcome)
    requires i < |s.admitted| && o == h(s.admitted[i].desc)
    ensures var s' := AfterReturn(s, i, o); Fits(h, s'.admitted, s.admitted[i].desc, s'.done[i])
  {
    if o.Children? {
      var items := s.admitted + Offspring(i, o.descs);
      assert items[|s.admitted|..|s.admitted| + |o.descs|] == Offspring(i, o.descs);
      assert Descs(Offspring(i, o.descs)) == o.descs;
    }
  }

  lemma MatchesReturn(h: Handler, s: State, i: nat, o: Outcome)
    requires Placed(s) && i in s.running && i < |s.admitted| && o == h(s.admitted[i].desc) && Matches(h, s)
    ensures Matches(h, AfterReturn(s, i, o))
  {
    hide Fits;
    var s' := AfterReturn(s, i, o);
    FitsReturn(h, s, i, o);
    var more := s'.admitted[|s.admitted|..];
    assert s'.admitted == s.admitted + more;
    forall k | k in s'.done && k < |s'.admitted| ensures Fits(h, s'.admitted, s'.admitted[k].desc, s'.done[k]) {
      if k != i {
        FitsMore(h, s.admitted, more, s.admitted[k].desc, s.done[k]);
      }
    }
  }

  lemma AccountsReturn(h: Handler, roots: seq<Descriptor>, s: State, i: nat, o: Outcome)
    requires Placed(s) && i in s.running && i < |s.admitted| && o == h(s.admitted[i].desc)
    requires Finite(h, roots) && Accounts(h, roots, s)
    ensures Accounts(h, roots, AfterReturn(s, i, o))
  {
    hide Finite;
    hide Tree;
    hide Sum;
    hide AllFinite;
    var s' := AfterReturn(s, i, o);
    if Fault(s'.done[i]) {
      assert Expanded(s') == Expanded(s);
    } else {
      assert Expanded(s') == Expanded(s) + {i};
      SumExpand(h, s.admitted, Expanded(s), i);
      if o.Children? {
        assert Descs(Offspring(i, o.descs)) == o.descs;
        SumAdmit(h, s.admitted, Offspring(i, o.descs), Expanded(s'));
      } else {
        TreeEmpty(h);
      }
    }
  }

  lemma AccountsKept(h: Handler, roots: seq<Descriptor>, s: State, step: Step)
    requires Enabled(s, step) && Obeys(h, s, step) && Inv(s) && Accounts(h, roots, s)
    ensures Accounts(h, roots, Apply(s, step))
  {
    hide Finite;
    hide Sum;
    hide AllFinite;
    if Finite(h, roots) {
      if step.Return? {
        hide AfterReturn;
        AccountsReturn(h, roots, s, step.i, step.outcome);
      } else {
        assert Expanded(Apply(s, step)) == Expanded(s);
      }
    }
  }

  /** A reference of a fine tree neither fails nor has its children turned away. */
  lemma NoFault(h: Handler, roots: seq<Descriptor>, s: State, i: nat)
    requires Placed(s) && i in s.running && i < |s.admitted|
    requires Fine(h, roots, 0) && Accounts(h, roots, s)
    ensures !Fault(Ended(s, i, h(s.admitted[i].desc)))
  {
    hide Finite;
    hide Tree;
    hide Sum;
    hide AllFinite;
    hide Kids;
    KidsAre(h, s.admitted[i].desc);
    var a := Expanded(s);
    SumSize(h, s.admitted, a);
    SumExpand(h, s.admitted, a, i);
    SumSize(h, s.admitted, a + {i});
    TreeSize(h, Kids(h, s.admitted[i].desc));
  }

  lemma CleanKept(h: Handler, roots: seq<Descriptor>, s: State, step: Step)
    requires Enabled(s, step) && Obeys(h, s, step) && Inv(s) && Accounts(h, roots, s) && Clean(h, roots, s)
    ensures Clean(h, roots, Apply(s, step))
  {
    hide Accounts;
    hide Fine;
    hide Linked;
    hide Permits;
    if Fine(h, roots, 0) && step.Return? {
      NoFault(h, roots, s, step.i);
    }
  }

  lemma {:induction false} RunAgrees(h: Handler, roots: seq<Descriptor>, s: State, steps: seq<Step>)
    requires Legal(s, steps) && ObeysAll(h, s, steps)
    requires Inv(s) && Matches(h, s) && Accounts(h, roots, s) && Clean(h, roots, s)
    ensures var e := Exec(s, steps); Inv(e) && Matches(h, e) && Accounts(h, roots, e) && Clean(h, roots, e)
    decreases |steps|
  {
    hide Inv;
    hide Matches;
    hide Accounts;
    hide Clean;
    hide Apply;
    hide Enabled;
    hide Obeys;
    if steps != [] {
      StepKeeps(s, steps[0]);
      MatchesKept(h, s, steps[0]);
      AccountsKept(h, roots, s, steps[0]);
      CleanKept(h, roots, s, steps[0]);
      RunAgrees(h, roots, Apply(s, steps[0]), steps[1..]);
    }
  }

  lemma NilFinish(h: Handler, s: State, k: nat)
    requires Inv(s) && Matches(h, s) && s.result == Returned(None) && k < |s.admitted|
    ensures k in s.done && !Fault(s.done[k]) && Fits(h, s.admitted, s.admitted[k].desc, s.done[k])
    ensures s.done[k].Admitted? ==> k < s.done[k].first
  {
    hide Permits;
    hide Fits;
  }

  lemma ItemFinite(h: Handler, items: seq<Item>, k: nat, f: Finish)
    requires k < |items| && !Fault(f) && Fits(h, items, items[k].desc, f) && (f.Admitted? ==> k < f.first)
    requires forall j :: k < j < |items| ==> Finite(h, [items[j].desc])
    ensures Finite(h, [items[k].desc])
  {
    hide Finite;
    if f.Admitted? {
      SliceFinite(h, items[f.first..f.first + f.n]);
    } else {
      TreeEmpty(h);
    }
    TreeOne(h, items[k].desc);
  }

  /** Children come after their parents, so the items of a completed call have finite trees, last ones first. */
  lemma {:induction false} ItemsFinite(h: Handler, s: State, k: nat)
    requires Inv(s) && Matches(h, s) && s.result == Returned(None) && k <= |s.admitted|
    ensures forall j :: k <= j < |s.admitted| ==> Finite(h, [s.admitted[j].desc])
    decreases |s.admitted| - k
  {
    hide Finite;
    hide Inv;
    hide Matches;
    if k < |s.admitted| {
      ItemsFinite(h, s, k + 1);
      NilFinish(h, s, k);
      ItemFinite(h, s.admitted, k, s.done[k]);
    }
  }

  lemma {:induction false} SliceFinite(h: Handler, items: seq<Item>)
    requires AllFinite(h, items)
    ensures Finite(h, Descs(items))
    decreases |items|
  {
    if items == [] {
      TreeEmpty(h);
    } else {
      var n := |items| - 1;
      SliceFinite(h, items[..n]);
      assert Descs(items) == Descs(items[..n]) + [items[n].desc];
      TreeAppend(h, Descs(items[..n]), [items[n].desc]);
    }
  }

  /** The roots stay the first items. */
  lemma {:induction false} RootsStay(s: State, steps: seq<Step>)
    requires Legal(s, steps)
    ensures s.admitted <= Exec(s, steps).admitted
    decreases |steps|
  {
    if steps != [] {
      RootsStay(Apply(s, steps[0]), steps[1..]);
    }
  }

  lemma NilExpanded(h: Handler, s: State)
    requires Inv(s) && Matches(h, s) && s.result == Returned(None)
    ensures forall j: nat :: j < |s.admitted| ==> j in Expanded(s)
  {
    hide Inv;
    hide Matches;
    forall j: nat | j < |s.admitted| ensures j in Expanded(s) {
      NilFinish(h, s, j);
    }
  }

  /** A call that returned nil has handled exactly the tree of its roots. */
  lemma NilIsTree(h: Handler, roots: seq<Descriptor>, s: State)
    requires Inv(s) && Matches(h, s) && Accounts(h, roots, s) && s.result == Returned(None)
    requires |roots| <= |s.admitted| && Descs(s.admitted[..|roots|]) == roots
    ensures Fine(h, roots, 0) && multiset(Descs(s.admitted)) == Tree(h, roots)
  {
    hide Finite;
    hide Tree;
    hide Sum;
    hide Matches;
    hide Permits;
    hide Linked;
    ItemsFinite(h, s, 0);
    SliceFinite(h, s.admitted[..|roots|]);
    NilExpanded(h, s);
    SumAll(h, s.admitted, Expanded(s));
    forall d | d in Tree(h, roots) ensures !h(d).Fail? {
      assert d in multiset(Descs(s.admitted));
      var j :| 0 <= j < |s.admitted| && Descs(s.admitted)[j] == d;
      NilFinish(h, s, j);
    }
  }

  lemma BeginAgrees(h: Handler, limiter: Option<(nat, nat)>, descs: seq<Descriptor>)
    requires descs != [] && |descs| <= MAX_REFERENCES
    ensures var s := Begin(limiter, false, descs);
      Matches(h, s) && Accounts(h, descs, s) && Clean(h, descs, s) && Descs(s.admitted[..|descs|]) == descs
  {
    var s := Begin(limiter, false, descs);
    assert s.admitted[..|descs|] == s.admitted && Descs(s.admitted) == descs;
    if Finite(h, descs) {
      assert Expanded(s) == {};
      SumAdmit(h, [], s.admitted, {});
      assert [] + s.admitted == s.admitted;
    }
  }

  /**
   Without cancellation, every schedule that returns does so with nil exactly
   when Walk succeeds on the same roots, and then the handler has been called for
   the same references, each as often as Walk calls it.
   */
  lemma DispatchAgreesWithWalk(h: Handler, limiter: Option<(nat, nat)>, descs: seq<Descriptor>, steps: seq<Step>)
    requires Legal(Begin(limiter, false, descs), steps) && ObeysAll(h, Begin(limiter, false, descs), steps)
    requires Exec(Begin(limiter, false, descs), steps).result.Returned?
    ensures var s := Exec(Begin(limiter, false, descs), steps);
      && (s.result == Returned(None) <==> Fine(h, descs, 0))
      && (s.result == Returned(None) ==> multiset(Descs(s.admitted)) == Tree(h, descs) && s.started == |s.admitted|)
  {
    var b := Begin(limiter, false, descs);
    BeginInv(limiter, false, descs);
    if descs == [] || |descs| > MAX_REFERENCES {
      NoSteps(b, steps);
      if descs == [] {
        TreeEmpty(h);
      } else {
        TooMany(h, descs, 0);
      }
    } else {
      BeginAgrees(h, limiter, descs);
      RunAgrees(h, descs, b, steps);
      RootsStay(b, steps);
      RootsFirst(h, descs, b, Exec(b, steps));
    }
  }

  lemma NoSteps(b: State, steps: seq<Step>)
    requires b.result.Returned? && Legal(b, steps)
    ensures steps == [] && Exec(b, steps) == b
  {
  }

  lemma RootsFirst(h: Handler, descs: seq<Descriptor>, b: State, s: State)
    requires |b.admitted| == |descs| && Descs(b.admitted[..|descs|]) == descs && b.admitted <= s.admitted
    requires Inv(s) && Matches(h, s) && Accounts(h, descs, s) && Clean(h, descs, s) && s.result.Returned?
    ensures s.result == Returned(None) <==> Fine(h, descs, 0)
    ensures s.result == Returned(None) ==> multiset(Descs(s.admitted)) == Tree(h, descs) && s.started == |s.admitted|
  {
    assert s.admitted[..|descs|] == b.admitted[..|descs|];
    if s.result == Returned(None) {
      NilIsTree(h, descs, s);
    }
  }
}
