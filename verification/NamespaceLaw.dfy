/** Collections never let one namespace decide what another one keeps. */
module NamespaceLaw {
  import opened Records
  import opened LabelRefs
  import opened Reachability
  import opened MarkSpec
  import opened CollectorLaws

  /** The namespace a fact is about. */
  ghost function FactNamespace(f: Fact): string {
    match f
    case Root(n) => n.ns
    case Back(a, _) => a.ns
    case Cond(a, _, _) => a.ns
    case Value(n, _) => n.ns
  }

  lemma SaysLocal(db: Database, db': Database, env: Env, f: Fact)
    requires var ns := FactNamespace(f); ns in db && ns in db' && db[ns] == db'[ns]
    requires Says(db, env, f)
    ensures Says(db', env, f)
  {
    hide EntryFacts;
    var ns, e :| ns in db && Has(db[ns], e) && f in EntryFacts(ns, e, env);
    FactShape(ns, e, env, f);
  }

  lemma EdgeLocal(db: Database, db': Database, env: Env, n: Node, m: Node)
    requires n.ns in db && n.ns in db' && db[n.ns] == db'[n.ns] && WellNamed(n.ns, n)
    requires Edge(db, env, n, m)
    ensures Edge(db', env, n, m)
  {
    hide Says;
    hide EntryTargets;
    assert RecordAt(db, n) == RecordAt(db', n);
    if BackEdge(db, env, n, m) {
      BackEdgeShape(db, env, n, m);
      if Says(db, env, Back(n, m)) {
        SaysLocal(db, db', env, Back(n, m));
      } else {
        var test, t :| Says(db, env, Cond(n, m, test)) && Says(db, env, Value(m, t)) && Holds(test, t, env.now);
        SaysLocal(db, db', env, Cond(n, m, test));
        SaysLocal(db, db', env, Value(m, t));
      }
    }
  }

  lemma LiveLocal(db: Database, db': Database, env: Env, n: Node)
    requires n.ns in db && n.ns in db' && db[n.ns] == db'[n.ns]
    requires Live(db, env, n)
    ensures Live(db', env, n)
  {
    hide Says;
    hide Edge;
    var inv := iset x: Node | WellNamed(x.ns, x) && (x.ns == n.ns ==> Live(db', env, x));
    forall x | x in Roots(db, env) ensures x in inv {
      RootShape(db, env, x);
      if x.ns == n.ns {
        SaysLocal(db, db', env, Root(x));
        RootLive(db', env, x);
      }
    }
    forall x, y | x in inv && y in Edges(db, env)(x) ensures y in inv {
      EdgeShape(db, env, x, y);
      if y.ns == n.ns {
        EdgeLocal(db, db', env, x, y);
        EdgeLive(db', env, x, y);
      }
    }
    ReachInduct(Roots(db, env), Edges(db, env), inv, n);
  }

  lemma KeptLocal(db: Database, db': Database, env: Env, n: Node)
    requires n.ns in db && n.ns in db' && db[n.ns] == db'[n.ns]
    requires Kept(db, env, n)
    ensures Kept(db', env, n)
  {
    hide Live;
    var m :| Live(db, env, m) && Strip(m) == n;
    LiveLocal(db, db', env, m);
  }

  /** What a collection removes in a namespace depends on that namespace and the context alone. */
  lemma NamespacesAreIndependent(db: Database, db': Database, env: Env, ns: string)
    requires ns in db && ns in db' && db[ns] == db'[ns]
    ensures Collected(db, env)[ns] == Collected(db', env)[ns]
  {
    hide Kept;
    forall n: Node | n.ns == ns ensures Kept(db, env, n) <==> Kept(db', env, n) {
      if Kept(db, env, n) {
        KeptLocal(db, db', env, n);
      }
      if Kept(db', env, n) {
        KeptLocal(db', db, env, n);
      }
    }
    FilterSame(ns, db[ns], KeptNodes(db, env), KeptNodes(db', env));
  }
}
