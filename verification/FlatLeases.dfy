/** Flat leases: what the "gc.flat" label takes away, and exactly what it leaves. */
module FlatLeases {
  import opened Bytes
  import opened Records
  import opened LabelRefs
  import opened Reachability
  import opened MarkSpec
  import opened CollectorLaws

  ghost predicate IsFlatType(t: ResourceType) {
    t == CONTENT_FLAT || t == SNAPSHOT_FLAT || t == IMAGE_FLAT
  }

  ghost predicate HasLease(db: Database, ns: string, id: string) {
    ns in db && id in db[ns].leases
  }

  /** The same database with another lease record under the same id. */
  function WithLease(db: Database, ns: string, id: string, l: Lease): Database
    requires HasLease(db, ns, id)
  {
    db[ns := db[ns].(leases := db[ns].leases[id := l])]
  }

  lemma PutBack(db: Database, ns: string, id: string, l: Lease)
    requires HasLease(db, ns, id)
    ensures WithLease(WithLease(db, ns, id, l), ns, id, db[ns].leases[id]) == db
  {
    assert db[ns].leases[id := l][id := db[ns].leases[id]] == db[ns].leases;
  }

  /** Only that lease's own facts differ. */
  lemma OtherFactsStay(db: Database, ns: string, id: string, l: Lease, env: Env, f: Fact)
    requires HasLease(db, ns, id) && Says(WithLease(db, ns, id, l), env, f)
    ensures Says(db, env, f) || f in EntryFacts(ns, LeaseEntry(id, l), env)
  {
    hide EntryFacts;
    var db' := WithLease(db, ns, id, l);
    var ns', e :| ns' in db' && Has(db'[ns'], e) && f in EntryFacts(ns', e, env);
    if ns' != ns || e != LeaseEntry(id, l) {
      assert Has(db[ns'], e);
    }
  }

  /** A lease makes roots only, so no edge depends on it. */
  lemma SameEdges(db: Database, ns: string, id: string, l: Lease, env: Env, n: Node, m: Node)
    requires HasLease(db, ns, id) && Edge(WithLease(db, ns, id, l), env, n, m)
    ensures Edge(db, env, n, m)
  {
    hide Says;
    hide EntryTargets;
    var db' := WithLease(db, ns, id, l);
    assert RecordAt(db, n) == RecordAt(db', n);
    if Says(db', env, Back(n, m)) {
      OtherFactsStay(db, ns, id, l, env, Back(n, m));
    } else if m !in RecordTargets(db', env, n) {
      var test, t :| Says(db', env, Cond(n, m, test)) && Says(db', env, Value(m, t)) && Holds(test, t, env.now);
      OtherFactsStay(db, ns, id, l, env, Cond(n, m, test));
      OtherFactsStay(db, ns, id, l, env, Value(m, t));
    }
  }

  // ---- turning a lease flat ----

  function Flattened(l: Lease, v: string): Lease {
    l.(labels := l.labels[LABEL_FLAT := v])
  }

  lemma LeaseRoots(ns: string, id: string, l: Lease, env: Env, n: Node)
    ensures Root(n) in EntryFacts(ns, LeaseEntry(id, l), env) <==>
      !Expired(l.labels, env) && (n == Node(LEASE, ns, id) || n in Leased(ns, l))
  {
  }

  lemma FlattenedListing(ns: string, l: Lease, v: string, n: Node)
    requires n in Leased(ns, Flattened(l, v))
    ensures n in Leased(ns, l) || (IsFlatType(n.typ) && Strip(n) in Leased(ns, l))
  {
  }

  lemma FlattenedExpiry(l: Lease, v: string, env: Env)
    ensures Expired(Flattened(l, v).labels, env) == Expired(l.labels, env)
  {
    assert |LABEL_FLAT| != |LABEL_EXPIRE|;
  }

  /** Every root of the flattened lease is, but for the flat bit, a root of the plain one. */
  lemma FlattenedRoots(db: Database, ns: string, id: string, v: string, env: Env, n: Node)
    requires HasLease(db, ns, id) && Root(n) in EntryFacts(ns, LeaseEntry(id, Flattened(db[ns].leases[id], v)), env)
    ensures Says(db, env, Root(n)) || (IsFlatType(n.typ) && Says(db, env, Root(Strip(n))))
  {
    hide EntryFacts;
    hide Leased;
    hide Expired;
    var l := db[ns].leases[id];
    FlattenedExpiry(l, v, env);
    LeaseRoots(ns, id, Flattened(l, v), env, n);
    LeaseRoots(ns, id, l, env, n);
    LeaseRoots(ns, id, l, env, Strip(n));
    if n in Leased(ns, Flattened(l, v)) {
      FlattenedListing(ns, l, v, n);
    }
    assert Has(db[ns], LeaseEntry(id, l));
  }

  /** Dropping the flat bit simulates the edges of flat nodes. */
  lemma StripSimulates(db: Database, env: Env, n: Node, m: Node)
    requires IsFlatType(n.typ) && Edge(db, env, n, m)
    ensures IsFlatType(m.typ) && Edge(db, env, Strip(n), Strip(m))
  {
    hide LabelTargets;
    hide Says;
    if BackEdge(db, env, n, m) {
      BackEdgeShape(db, env, n, m);
    }
    assert RecordAt(db, Strip(n)) == RecordAt(db, n) || n.typ == CONTENT_FLAT;
  }

  /** Turning a lease flat never makes a collection keep more. */
  lemma FlatteningKeepsNoMore(db: Database, ns: string, id: string, v: string, env: Env, n: Node)
    requires HasLease(db, ns, id)
    requires Kept(WithLease(db, ns, id, Flattened(db[ns].leases[id], v)), env, n)
    ensures Kept(db, env, n)
  {
    hide Says;
    hide Edge;
    hide EntryFacts;
    var l := Flattened(db[ns].leases[id], v);
    var db' := WithLease(db, ns, id, l);
    var inv := iset x | Live(db, env, x) || (IsFlatType(x.typ) && Live(db, env, Strip(x)));
    forall x | x in Roots(db', env) ensures x in inv {
      OtherFactsStay(db, ns, id, l, env, Root(x));
      if !Says(db, env, Root(x)) {
        FlattenedRoots(db, ns, id, v, env, x);
        RootLive(db, env, Strip(x));
      } else {
        RootLive(db, env, x);
      }
    }
    forall x, y | x in inv && y in Edges(db', env)(x) ensures y in inv {
      SameEdges(db, ns, id, l, env, x, y);
      if Live(db, env, x) {
        EdgeLive(db, env, x, y);
      } else {
        StripSimulates(db, env, x, y);
        EdgeLive(db, env, Strip(x), Strip(y));
      }
    }
    var m :| Live(db', env, m) && Strip(m) == n;
    ReachInduct(Roots(db', env), Edges(db', env), inv, m);
    assert Strip(Strip(m)) == Strip(m);
  }

  // ---- what a flat lease holds by itself ----

  /** The lease with all its listings taken out. */
  function WithoutListings(l: Lease): Lease {
    l.(content := {}, snapshots := {}, images := {}, ingests := {})
  }

  ghost function ListedIngests(ns: string, l: Lease): iset<Node> {
    iset n: Node | n.typ == INGEST && n.ns == ns && n.key in l.ingests
  }

  /** Reachable from the ingests that the lease lists, which are never flat. */
  ghost predicate FromIngests(db: Database, env: Env, ns: string, l: Lease, n: Node) {
    Reach(ListedIngests(ns, l), Edges(db, env), n)
  }

  ghost predicate HeldSnapshot(r: Namespace, l: Lease, key: string) {
    exists ss: Snapshotter, names :: ParentPath(r, ss, names) && (ss, names[0]) in l.snapshots &&
        key == SnapKey(ss, names[|names| - 1])
  }

  ghost predicate HeldTarget(r: Namespace, l: Lease, d: string) {
    exists i :: i in l.images && i in r.images && r.images[i].target == Some(d)
  }

  /** What a flat lease holds by itself: its listings, snapshot parents and image targets. */
  ghost predicate Held(ns: string, r: Namespace, l: Lease, n: Node) {
    && n.ns == ns
    && ((n.typ == CONTENT && (n.key in l.content || HeldTarget(r, l, n.key)))
        || (n.typ == IMAGE && n.key in l.images)
        || (n.typ == SNAPSHOT && HeldSnapshot(r, l, n.key)))
  }

  ghost predicate HeldFlat(ns: string, r: Namespace, l: Lease, n: Node) {
    IsFlatType(n.typ) && Held(ns, r, l, Strip(n))
  }

  lemma ListedRoots(ns: string, r: Namespace, l: Lease, n: Node)
    requires IsFlat(l.labels) && n in Leased(ns, l)
    ensures HeldFlat(ns, r, l, n) || n in ListedIngests(ns, l)
  {
    if n.typ == SNAPSHOT_FLAT {
      var s :| s in l.snapshots && n.key == SnapKey(s.0, s.1);
      assert ParentPath(r, s.0, [s.1]);
    }
  }

  /** From a held flat node every edge leads to a held flat node. */
  lemma HeldClosed(db: Database, ns: string, l: Lease, env: Env, n: Node, m: Node)
    requires ns in db && HeldFlat(ns, db[ns], l, n) && Edge(db, env, n, m)
    ensures HeldFlat(ns, db[ns], l, m)
  {
    hide Says;
    hide LabelTargets;
    hide HeldSnapshot;
    if BackEdge(db, env, n, m) {
      BackEdgeShape(db, env, n, m);
    }
    if n.typ == SNAPSHOT_FLAT {
      var e := RecordAt(db, n).value;
      HeldParent(db[ns], l, n.key, e.snapshot);
    }
  }

  lemma HeldParent(r: Namespace, l: Lease, key: string, s: Snapshot)
    requires HeldSnapshot(r, l, key) && s.parent != ""
    requires (Before(key, '/'), After(key, '/')) in r.snapshots && r.snapshots[(Before(key, '/'), After(key, '/'))] == s
    ensures HeldSnapshot(r, l, SnapKey(Before(key, '/'), s.parent))
  {
    var ss: Snapshotter, names :| ParentPath(r, ss, names) && (ss, names[0]) in l.snapshots &&
        key == SnapKey(ss, names[|names| - 1]);
    SnapKeyCut(ss, names[|names| - 1]);
    PathExtend(r, ss, names, s.parent);
    assert (ss, (names + [s.parent])[0]) in l.snapshots;
  }

  lemma PathExtend(r: Namespace, ss: Snapshotter, names: seq<string>, parent: string)
    requires ParentPath(r, ss, names) && ParentLink(r, ss, names[|names| - 1], parent)
    ensures ParentPath(r, ss, names + [parent])
  {
    hide ParentLink;
    var names' := names + [parent];
    forall i, j | 0 <= i < j < |names'| && j == i + 1 ensures ParentLink(r, ss, names'[i], names'[j]) {
      assert names'[i] == names[i] && (j < |names| ==> names'[j] == names[j]);
    }
  }

  ghost predicate IsFlatLease(db: Database, ns: string, id: string, env: Env) {
    HasLease(db, ns, id) && IsFlat(db[ns].leases[id].labels) && !Expired(db[ns].leases[id].labels, env)
  }

  lemma ListedLive(db: Database, ns: string, id: string, env: Env, n: Node)
    requires IsFlatLease(db, ns, id, env) && n in Leased(ns, db[ns].leases[id])
    ensures Live(db, env, n)
  {
    hide EntryFacts;
    hide Live;
    var e := LeaseEntry(id, db[ns].leases[id]);
    LeaseRoots(ns, id, e.lease, env, n);
    assert Has(db[ns], e);
    RootLive(db, env, n);
  }

  lemma ParentPathSome(r: Namespace, ss: Snapshotter, names: seq<string>)
    requires ParentPath(r, ss, names)
    ensures names != []
  {
  }

  lemma ParentPathPrefix(r: Namespace, ss: Snapshotter, names: seq<string>)
    requires ParentPath(r, ss, names) && |names| > 1
    ensures ParentPath(r, ss, names[..|names| - 1]) && ParentLink(r, ss, names[|names| - 2], names[|names| - 1])
  {
    hide ParentLink;
    var n := |names| - 1;
    var m := n - 1;
    assert ParentLink(r, ss, names[m], names[n]);
    forall i, j | 0 <= i < j < n && j == i + 1 ensures ParentLink(r, ss, names[..n][i], names[..n][j]) {
      assert names[..n][i] == names[i] && names[..n][j] == names[j];
    }
  }

  lemma {:induction false} ParentPathLive(db: Database, ns: string, id: string, env: Env, ss: Snapshotter,
                                          names: seq<string>)
    requires IsFlatLease(db, ns, id, env) && ParentPath(db[ns], ss, names)
    requires (ss, names[0]) in db[ns].leases[id].snapshots
    ensures Live(db, env, Node(SNAPSHOT_FLAT, ns, SnapKey(ss, names[|names| - 1])))
    decreases |names|
  {
    hide Live;
    hide LabelTargets;
    hide Says;
    hide ParentPath;
    ParentPathSome(db[ns], ss, names);
    if |names| == 1 {
      ListedLive(db, ns, id, env, Node(SNAPSHOT_FLAT, ns, SnapKey(ss, names[0])));
    } else {
      var prev, last := names[|names| - 2], names[|names| - 1];
      ParentPathPrefix(db[ns], ss, names);
      ParentPathLive(db, ns, id, env, ss, names[..|names| - 1]);
      SnapKeyCut(ss, prev);
      EdgeLive(db, env, Node(SNAPSHOT_FLAT, ns, SnapKey(ss, prev)), Node(SNAPSHOT_FLAT, ns, SnapKey(ss, last)));
    }
  }

  lemma HeldLive(db: Database, ns: string, id: string, env: Env, n: Node)
    requires IsFlatLease(db, ns, id, env) && HeldFlat(ns, db[ns], db[ns].leases[id], n)
    ensures Live(db, env, n)
  {
    hide Live;
    hide Says;
    hide LabelTargets;
    var r, l := db[ns], db[ns].leases[id];
    if n.typ == SNAPSHOT_FLAT {
      var ss: Snapshotter, names :| ParentPath(r, ss, names) && (ss, names[0]) in l.snapshots &&
          n.key == SnapKey(ss, names[|names| - 1]);
      ParentPathLive(db, ns, id, env, ss, names);
    } else if n in Leased(ns, l) {
      ListedLive(db, ns, id, env, n);
    } else {
      var i :| i in l.images && i in r.images && r.images[i].target == Some(n.key);
      ListedLive(db, ns, id, env, Node(IMAGE_FLAT, ns, i));
      EdgeLive(db, env, Node(IMAGE_FLAT, ns, i), n);
    }
  }

  /**
   Putting the listings back reaches what was reached without them, the held flat nodes,
   and what the ingests lead to.
   */
  lemma ListingsAddHeld(db: Database, ns: string, id: string, env: Env, n: Node)
    requires IsFlatLease(db, ns, id, env) && Live(db, env, n)
    ensures Live(WithLease(db, ns, id, WithoutListings(db[ns].leases[id])), env, n)
      || HeldFlat(ns, db[ns], db[ns].leases[id], n) || FromIngests(db, env, ns, db[ns].leases[id], n)
  {
    hide Says;
    hide Edge;
    hide EntryFacts;
    hide Held;
    hide Leased;
    hide Live;
    hide FromIngests;
    var l := db[ns].leases[id];
    var l0 := WithoutListings(l);
    var db0 := WithLease(db, ns, id, l0);
    PutBack(db, ns, id, l0);
    var inv := iset x | Live(db0, env, x) || HeldFlat(ns, db[ns], l, x) || FromIngests(db, env, ns, l, x);
    forall x | x in Roots(db, env) ensures x in inv {
      RootStays(db, ns, id, env, x);
      if Says(db0, env, Root(x)) {
        RootLive(db0, env, x);
      } else if x in ListedIngests(ns, l) {
        IngestRoot(db, env, ns, l, x);
      }
    }
    forall x, y | x in inv && y in Edges(db, env)(x) ensures y in inv {
      if Live(db0, env, x) {
        SameEdges(db0, ns, id, l, env, x, y);
        EdgeLive(db0, env, x, y);
      } else if HeldFlat(ns, db[ns], l, x) {
        HeldClosed(db, ns, l, env, x, y);
      } else {
        IngestEdge(db, env, ns, l, x, y);
      }
    }
    LiveInduct(db, env, inv, n);
  }

  lemma IngestRoot(db: Database, env: Env, ns: string, l: Lease, n: Node)
    requires n in ListedIngests(ns, l)
    ensures FromIngests(db, env, ns, l, n)
  {
    RootReach(ListedIngests(ns, l), Edges(db, env), n);
  }

  lemma IngestEdge(db: Database, env: Env, ns: string, l: Lease, n: Node, m: Node)
    requires FromIngests(db, env, ns, l, n) && Edge(db, env, n, m)
    ensures FromIngests(db, env, ns, l, m)
  {
    StepReach(ListedIngests(ns, l), Edges(db, env), n, m);
  }

  /** What the listed ingests lead to is live. */
  lemma FromIngestsLive(db: Database, ns: string, id: string, env: Env, n: Node)
    requires IsFlatLease(db, ns, id, env) && FromIngests(db, env, ns, db[ns].leases[id], n)
    ensures Live(db, env, n)
  {
    hide Live;
    hide Edge;
    var l := db[ns].leases[id];
    var inv := iset x | Live(db, env, x);
    forall x | x in ListedIngests(ns, l) ensures x in inv {
      ListedLive(db, ns, id, env, x);
    }
    forall x, y | x in inv && y in Edges(db, env)(x) ensures y in inv {
      EdgeLive(db, env, x, y);
    }
    ReachInduct(ListedIngests(ns, l), Edges(db, env), inv, n);
  }

  lemma RootStays(db: Database, ns: string, id: string, env: Env, n: Node)
    requires IsFlatLease(db, ns, id, env) && Says(db, env, Root(n))
    ensures Says(WithLease(db, ns, id, WithoutListings(db[ns].leases[id])), env, Root(n))
      || HeldFlat(ns, db[ns], db[ns].leases[id], n) || n in ListedIngests(ns, db[ns].leases[id])
  {
    hide EntryFacts;
    hide Held;
    hide Leased;
    var l := db[ns].leases[id];
    var l0 := WithoutListings(l);
    var db0 := WithLease(db, ns, id, l0);
    PutBack(db, ns, id, l0);
    OtherFactsStay(db0, ns, id, l, env, Root(n));
    LeaseRoots(ns, id, l, env, n);
    LeaseRoots(ns, id, l0, env, n);
    assert Has(db0[ns], LeaseEntry(id, l0));
    if n in Leased(ns, l) {
      ListedRoots(ns, db[ns], l, n);
    }
  }

  lemma RestStaysLive(db: Database, ns: string, id: string, env: Env, n: Node)
    requires IsFlatLease(db, ns, id, env) && Live(WithLease(db, ns, id, WithoutListings(db[ns].leases[id])), env, n)
    ensures Live(db, env, n)
  {
    hide Says;
    hide Edge;
    hide EntryFacts;
    hide Live;
    var l := db[ns].leases[id];
    var l0 := WithoutListings(l);
    var db0 := WithLease(db, ns, id, l0);
    var inv := iset x | Live(db, env, x);
    forall x | x in Roots(db0, env) ensures x in inv {
      OtherFactsStay(db, ns, id, l0, env, Root(x));
      if Says(db, env, Root(x)) {
        RootLive(db, env, x);
      } else {
        LeaseRoots(ns, id, l0, env, x);
        LeaseRoots(ns, id, l, env, x);
        LeaseSays(db, ns, id, env, x);
      }
    }
    forall x, y | x in inv && y in Edges(db0, env)(x) ensures y in inv {
      SameEdges(db, ns, id, l0, env, x, y);
      EdgeLive(db, env, x, y);
    }
    LiveInduct(db0, env, inv, n);
  }

  lemma LeaseSays(db: Database, ns: string, id: string, env: Env, n: Node)
    requires HasLease(db, ns, id) && Root(n) in EntryFacts(ns, LeaseEntry(id, db[ns].leases[id]), env)
    ensures Live(db, env, n)
  {
    hide EntryFacts;
    hide Live;
    assert Has(db[ns], LeaseEntry(id, db[ns].leases[id]));
    RootLive(db, env, n);
  }

  /**
   A flat lease keeps exactly its listed objects, the parent chains of its
   snapshots, the target blobs of its images and whatever its ingests lead to,
   beyond what is kept without its listings.
   */
  lemma FlatLeaseKeepsExactly(db: Database, ns: string, id: string, env: Env, n: Node)
    requires IsFlatLease(db, ns, id, env)
    ensures Kept(db, env, n) <==>
      || Kept(WithLease(db, ns, id, WithoutListings(db[ns].leases[id])), env, n)
      || Held(ns, db[ns], db[ns].leases[id], n)
      || exists m :: FromIngests(db, env, ns, db[ns].leases[id], m) && Strip(m) == n
  {
    hide Live;
    hide HeldSnapshot;
    hide HeldTarget;
    hide FromIngests;
    var l := db[ns].leases[id];
    var db0 := WithLease(db, ns, id, WithoutListings(l));
    if Kept(db, env, n) {
      var m :| Live(db, env, m) && Strip(m) == n;
      ListingsAddHeld(db, ns, id, env, m);
    }
    if Held(ns, db[ns], l, n) {
      var m := n.(typ := n.typ + 0x20);
      HeldLive(db, ns, id, env, m);
      LiveKept(db, env, m);
    } else if Kept(db0, env, n) {
      var m :| Live(db0, env, m) && Strip(m) == n;
      RestStaysLive(db, ns, id, env, m);
    } else if m :| FromIngests(db, env, ns, l, m) && Strip(m) == n {
      FromIngestsLive(db, ns, id, env, m);
    }
  }

  /**
   What an ingest listed by a flat lease leads to: it is not flat, so the blob it
   expects is reached as plain content, with whatever its labels reference.
   */
  lemma FlatLeaseIngestIsPlain(db: Database, ns: string, id: string, env: Env, ref: string, n: Node)
    requires IsFlatLease(db, ns, id, env) && ref in db[ns].leases[id].ingests && ref in db[ns].ingests
    requires var d := db[ns].ingests[ref].expected;
      d != "" && d in db[ns].blobs && n in LabelTargets(ns, db[ns].blobs[d].labels, env)
    ensures FromIngests(db, env, ns, db[ns].leases[id], n) && Kept(db, env, n)
  {
    hide Live;
    hide Says;
    hide LabelTargets;
    hide FromIngests;
    var d, l := db[ns].ingests[ref].expected, db[ns].leases[id];
    IngestRoot(db, env, ns, l, Node(INGEST, ns, ref));
    IngestEdge(db, env, ns, l, Node(INGEST, ns, ref), Node(CONTENT, ns, d));
    IngestEdge(db, env, ns, l, Node(CONTENT, ns, d), n);
    FromIngestsLive(db, ns, id, env, n);
    LabelTargetShape(ns, db[ns].blobs[d].labels, env, n);
    LiveKept(db, env, n);
  }

  // ---- an ingest that is the only reason ----

  /** A flat lease on one ingest, which expects blob "d", which refers to blob "e". */
  const REFERS: Labels := map[LABEL_CONTENT_REF := "e"]
  const FLAT_LEASE := Lease(map[LABEL_FLAT := "true"], {}, {}, {"r"}, {})
  const SOLE: Namespace := EMPTY_NAMESPACE.(
    leases := map["l" := FLAT_LEASE],
    ingests := map["r" := Ingest("n/1/r", "d", NoExpiry)],
    blobs := map["d" := Blob(1, REFERS), "e" := Blob(1, map[])])

  /** Neither blob says anything to the scan by itself. */
  /** No handler that the scan of roots uses reads the content reference label. */
  lemma NotRead(h: Handler)
    requires h in HANDLERS && !Skipped(h, CB_BREF_ROOT_COND)
    ensures !HasPrefix(LABEL_CONTENT_REF, h.key)
  {
    var n := |GC|;
    assert LABEL_CONTENT_REF[n] == 'r' && LABEL_CONTENT_REF[n + 1] == 'e';
    assert h.key[n] == 'b' || h.key[n] == 'c' || h.key[n + 1] == 'o';
  }

  lemma NothingScanned(self: Node, env: Env)
    requires env.handlers == HANDLERS
    ensures LabelFacts(self, REFERS, CB_BREF_ROOT_COND, env) == {}
    ensures LabelFacts(self, map[], CB_BREF_ROOT_COND, env) == {}
  {
    hide HasPrefix;
    hide Skipped;
    forall h | h in HANDLERS && !Skipped(h, CB_BREF_ROOT_COND) ensures !HasPrefix(LABEL_CONTENT_REF, h.key) {
      NotRead(h);
    }
    assert CallSet(self.ns, REFERS, CB_BREF_ROOT_COND, env) == {};
    assert CallSet(self.ns, map[], CB_BREF_ROOT_COND, env) == {};
  }

  /** Without its listing the lease is the only thing that the scan learns of. */
  lemma OnlyLeaseSaid(db: Database, env: Env, f: Fact)
    requires env.handlers == HANDLERS && db == map["n" := SOLE.(leases := map["l" := WithoutListings(FLAT_LEASE)])]
    requires Says(db, env, f)
    ensures f == Root(Node(LEASE, "n", "l"))
  {
    hide LabelFacts;
    hide Leased;
    hide Expired;
    var ns, e :| ns in db && Has(db[ns], e) && f in EntryFacts(ns, e, env);
    NothingScanned(Self(ns, e), env);
    NothingListed(ns, FLAT_LEASE);
  }

  lemma NothingListed(ns: string, l: Lease)
    ensures Leased(ns, WithoutListings(l)) == {}
  {
  }

  lemma OnlyLeaseLive(db: Database, env: Env, n: Node)
    requires env.handlers == HANDLERS && db == map["n" := SOLE.(leases := map["l" := WithoutListings(FLAT_LEASE)])]
    requires Live(db, env, n)
    ensures n.typ == LEASE
  {
    hide Live;
    hide Says;
    hide EntryTargets;
    var inv := iset x: Node | x.typ == LEASE;
    forall f | Says(db, env, f) ensures f == Root(Node(LEASE, "n", "l")) {
      OnlyLeaseSaid(db, env, f);
    }
    assert forall x, y :: x in inv ==> y !in Edges(db, env)(x);
    LiveInduct(db, env, inv, n);
  }

  lemma RefersTo(env: Env)
    requires env.handlers == HANDLERS
    ensures Node(CONTENT, "n", "e") in LabelTargets("n", REFERS, env)
  {
    var h, n := Handler(LABEL_CONTENT_REF, Ref(CONTENT)), Node(CONTENT, "n", "e");
    assert HANDLERS[4] == h && h in env.handlers;
    assert REFERS[LABEL_CONTENT_REF] == "e" && HasPrefix(LABEL_CONTENT_REF, h.key) && !Skipped(h, CB_FN);
    assert CallRef(n) in Fire(h, "n", LABEL_CONTENT_REF, "e", CB_FN, env);
    assert CallRef(n) in CallSet("n", REFERS, CB_FN, env);
  }

  lemma NotExpired(env: Env)
    ensures IsFlatLease(map["n" := SOLE], "n", "l", env)
  {
    assert LABEL_EXPIRE[|GC|] == 'e' && LABEL_FLAT[|GC|] == 'f';
  }

  lemma NotKeptOtherwise(env: Env, db: Database)
    requires env.handlers == HANDLERS && db == map["n" := SOLE.(leases := map["l" := WithoutListings(FLAT_LEASE)])]
    ensures !Kept(db, env, Node(CONTENT, "n", "e"))
  {
    hide Live;
    forall m | Live(db, env, m) ensures Strip(m) != Node(CONTENT, "n", "e") {
      OnlyLeaseLive(db, env, m);
    }
  }

  lemma KeptByIngest(env: Env)
    requires env.handlers == HANDLERS
    ensures Kept(map["n" := SOLE], env, Node(CONTENT, "n", "e"))
  {
    hide Kept;
    hide LabelTargets;
    hide IsFlatLease;
    RefersTo(env);
    NotExpired(env);
    FlatLeaseIngestIsPlain(map["n" := SOLE], "n", "l", env, "r", Node(CONTENT, "n", "e"));
  }

  lemma SoleCleared(l: Lease)
    ensures WithLease(map["n" := SOLE], "n", "l", l) == map["n" := SOLE.(leases := map["l" := l])]
  {
    assert SOLE.leases["l" := l] == map["l" := l];
  }

  /** Blob "e" is kept because of the listed ingest and for no other reason. */
  lemma IngestIsSoleReason(env: Env)
    requires env.handlers == HANDLERS
    ensures var db, n := map["n" := SOLE], Node(CONTENT, "n", "e");
      && IsFlatLease(db, "n", "l", env) && Kept(db, env, n) && !Held("n", SOLE, FLAT_LEASE, n)
      && !Kept(WithLease(db, "n", "l", WithoutListings(FLAT_LEASE)), env, n)
  {
    hide Kept;
    hide IsFlatLease;
    hide WithLease;
    hide HeldSnapshot;
    NotExpired(env);
    KeptByIngest(env);
    SoleCleared(WithoutListings(FLAT_LEASE));
    NotKeptOtherwise(env, WithLease(map["n" := SOLE], "n", "l", WithoutListings(FLAT_LEASE)));
  }
}
