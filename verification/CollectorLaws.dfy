/** What a collection guarantees about the records that survive it. */
module CollectorLaws {
  import opened Bytes
  import opened Records
  import opened LabelRefs
  import opened Reachability
  import opened Tricolor
  import opened MarkSpec

  // ---- the shape of facts and live nodes ----

  ghost predicate IsSnapshotType(t: ResourceType) {
    t == SNAPSHOT || t == SNAPSHOT_FLAT
  }

  /** A node that belongs to `ns`, has a type the collector uses and, if it names a snapshot, can be cut at '/'. */
  ghost predicate WellNamed(ns: string, n: Node) {
    && n.ns == ns
    && (n.typ <= RESOURCE_MAX || n.typ == CONTENT_FLAT || n.typ == SNAPSHOT_FLAT || n.typ == IMAGE_FLAT)
    && (IsSnapshotType(n.typ) ==> '/' in n.key)
  }

  ghost predicate FactWellNamed(ns: string, f: Fact) {
    match f
    case Root(n) => WellNamed(ns, n)
    case Back(a, b) => WellNamed(ns, a) && WellNamed(ns, b) && a.typ <= RESOURCE_MAX
    case Cond(a, b, _) => WellNamed(ns, a) && WellNamed(ns, b) && a.typ <= RESOURCE_MAX
    case Value(n, _) => WellNamed(ns, n)
  }

  lemma {:induction false} CondCallsNode(n: Node, conds: seq<string>, env: Env, c: Call)
    requires c in CondCalls(n, conds, env)
    ensures c.CallCond? && c.n == n
    decreases |conds|
  {
    if c in CondCalls(n, conds[1..], env) {
      CondCallsNode(n, conds[1..], env, c);
    }
  }

  /** A handler calls only a callback that is set, with a node of the object's own namespace. */
  lemma FireShape(h: Handler, ns: string, k: string, v: string, cb: Callbacks, env: Env, c: Call)
    requires HandlerOk(h) && HasPrefix(k, h.key) && c in Fire(h, ns, k, v, cb, env) && !Skipped(h, cb)
    ensures match c
            case CallRef(n) => cb.fn && WellNamed(ns, n) && n.typ <= RESOURCE_MAX
            case CallBackRef(n) => cb.bref && WellNamed(ns, n) && n.typ <= RESOURCE_MAX
            case CallRoot => cb.root
            case CallCond(n, _) => cb.cond && WellNamed(ns, n)
            case CallValue(_) => cb.condVal
  {
    if h.kind.SnapCond? {
      var n := Node(SNAPSHOT, ns, SnapKey(Before(TrimLeft(k[|h.key|..]), '/'), After(v, '|')));
      CondCallsNode(n, Split(Before(v, '|'), ','), env, c);
    }
  }

  lemma CallShape(ns: string, labels: Labels, cb: Callbacks, env: Env, c: Call)
    requires c in CallSet(ns, labels, cb, env)
    ensures match c
            case CallRef(n) => cb.fn && WellNamed(ns, n) && n.typ <= RESOURCE_MAX
            case CallBackRef(n) => cb.bref && WellNamed(ns, n) && n.typ <= RESOURCE_MAX
            case CallRoot => cb.root
            case CallCond(n, _) => cb.cond && WellNamed(ns, n)
            case CallValue(_) => cb.condVal
  {
    var h, k :| h in env.handlers && k in labels && !Skipped(h, cb) && HasPrefix(k, h.key)
                && c in Fire(h, ns, k, labels[k], cb, env);
    FireShape(h, ns, k, labels[k], cb, env, c);
  }

  lemma LabelFactShape(self: Node, labels: Labels, cb: Callbacks, env: Env, f: Fact)
    requires f in LabelFacts(self, labels, cb, env)
    ensures match f
            case Root(n) => (cb.root && n == self) || (cb.fn && WellNamed(self.ns, n))
            case Back(a, b) => cb.bref && b == self && WellNamed(self.ns, a) && a.typ <= RESOURCE_MAX
            case Cond(a, b, _) => cb.cond && a == self && WellNamed(self.ns, b)
            case Value(n, _) => cb.condVal && n == self
  {
    var c :| c in CallSet(self.ns, labels, cb, env) && f == Learned(self, c);
    CallShape(self.ns, labels, cb, env, c);
  }

  /** The facts of a record stay in its namespace, and all but roots name the record itself. */
  lemma FactShape(ns: string, e: Entry, env: Env, f: Fact)
    requires f in EntryFacts(ns, e, env)
    ensures FactWellNamed(ns, f)
    ensures f.Back? ==> f.to == Self(ns, e)
    ensures f.Cond? ==> f.from == Self(ns, e)
    ensures f.Value? ==> f.n == Self(ns, e)
    ensures f.Root? ==> e.ContainerEntry? || e.SandboxEntry? || Root(Self(ns, e)) in EntryFacts(ns, e, env)
  {
    var self := Self(ns, e);
    match e
    case LeaseEntry(_, l) => assert f.Root?;
      forall s | s in l.snapshots { SnapKeyCut(s.0, s.1); }
    case ImageEntry(_, i) =>
      if f != Root(self) {
        LabelFactShape(self, i.labels, if Expired(i.labels, env) then CB_BREF_COND else CB_COND, env, f);
      }
    case IngestEntry(_, _) =>
    case BlobEntry(_, b) => LabelFactShape(self, b.labels, CB_BREF_ROOT_COND, env, f);
    case ContainerEntry(_, c) =>
      if f != Root(self) {
        LabelFactShape(self, c.labels, CB_BREF, env, f);
      }
    case SnapshotEntry(ss, k, s) =>
      SnapKeyCut(ss, k);
      LabelFactShape(self, s.labels, CB_BREF_ROOT_VALUE, env, f);
    case SandboxEntry(_, s) => LabelFactShape(self, s.labels, CB_FN, env, f);
  }

  lemma LabelTargetShape(ns: string, labels: Labels, env: Env, m: Node)
    requires m in LabelTargets(ns, labels, env)
    ensures WellNamed(ns, m) && m.typ <= RESOURCE_MAX
  {
    CallShape(ns, labels, CB_FN, env, CallRef(m));
  }

  lemma RecordAtIsSelf(db: Database, n: Node)
    requires WellNamed(n.ns, n) && RecordAt(db, n).Some?
    ensures n.ns in db && Has(db[n.ns], RecordAt(db, n).value) && Self(n.ns, RecordAt(db, n).value) == Strip(n)
  {
    if IsSnapshotType(n.typ) {
      SnapKeyJoin(n.key);
    }
  }

  lemma RecordTargetShape(db: Database, env: Env, n: Node, m: Node)
    requires m in RecordTargets(db, env, n) && WellNamed(n.ns, n)
    ensures WellNamed(n.ns, m)
  {
    var e := RecordAt(db, n).value;
    RecordAtIsSelf(db, n);
    if IsSnapshotType(n.typ) {
      SnapKeyCut(e.ss, e.snapshot.parent);
    }
    forall labels | m in LabelTargets(n.ns, labels, env) {
      LabelTargetShape(n.ns, labels, env, m);
    }
  }

  lemma BackEdgeShape(db: Database, env: Env, n: Node, m: Node)
    requires BackEdge(db, env, n, m)
    ensures WellNamed(n.ns, m) && n.typ <= RESOURCE_MAX
  {
    hide EntryFacts;
    if Says(db, env, Back(n, m)) {
      var _ := SaysShape(db, env, Back(n, m));
    } else {
      var test, t :| Says(db, env, Cond(n, m, test)) && Says(db, env, Value(m, t));
      var _ := SaysShape(db, env, Cond(n, m, test));
    }
  }

  lemma SaysShape(db: Database, env: Env, f: Fact) returns (ns: string)
    requires Says(db, env, f)
    ensures ns in db && FactWellNamed(ns, f)
  {
    hide EntryFacts;
    var e;
    ns, e :| ns in db && Has(db[ns], e) && f in EntryFacts(ns, e, env);
    FactShape(ns, e, env, f);
  }

  lemma EdgeShape(db: Database, env: Env, n: Node, m: Node)
    requires Edge(db, env, n, m) && WellNamed(n.ns, n)
    ensures WellNamed(n.ns, m)
  {
    if m in RecordTargets(db, env, n) {
      RecordTargetShape(db, env, n, m);
    } else {
      BackEdgeShape(db, env, n, m);
    }
  }

  lemma RootShape(db: Database, env: Env, n: Node)
    requires n in Roots(db, env)
    ensures WellNamed(n.ns, n) && n.ns in db
  {
    hide EntryFacts;
    var _ := SaysShape(db, env, Root(n));
  }

  /** A live node belongs to an existing namespace, and a live snapshot node can always be cut. */
  lemma LiveShape(db: Database, env: Env, n: Node)
    requires Live(db, env, n)
    ensures WellNamed(n.ns, n) && n.ns in db
  {
    var inv := iset x: Node | WellNamed(x.ns, x) && x.ns in db;
    forall r | r in Roots(db, env) ensures r in inv {
      RootShape(db, env, r);
    }
    forall x, y | x in inv && y in Edges(db, env)(x) ensures y in inv {
      EdgeShape(db, env, x, y);
    }
    ReachInduct(Roots(db, env), Edges(db, env), inv, n);
  }

  // ---- a second collection ----

  /** A record survives when its node is kept; containers and sandboxes always do. */
  ghost predicate Survives(db: Database, env: Env, ns: string, e: Entry) {
    e.ContainerEntry? || e.SandboxEntry? || Kept(db, env, Self(ns, e))
  }

  lemma CollectedHas(db: Database, env: Env, ns: string, e: Entry)
    requires ns in db
    ensures Has(Collected(db, env)[ns], e) <==> Has(db[ns], e) && Survives(db, env, ns, e)
  {
  }

  lemma RootLive(db: Database, env: Env, n: Node)
    requires Says(db, env, Root(n))
    ensures Live(db, env, n)
  {
    RootReach(Roots(db, env), Edges(db, env), n);
  }

  lemma EdgeLive(db: Database, env: Env, n: Node, m: Node)
    requires Live(db, env, n) && Edge(db, env, n, m)
    ensures Live(db, env, m)
  {
    StepReach(Roots(db, env), Edges(db, env), n, m);
  }

  lemma LiveKept(db: Database, env: Env, n: Node)
    requires Live(db, env, n)
    ensures Kept(db, env, Strip(n))
  {
  }

  /** A fact outlives the collection if it is a root or names, as its record, a live node. */
  lemma FactSurvives(db: Database, env: Env, f: Fact)
    requires Says(db, env, f)
    requires f.Back? ==> Live(db, env, f.to)
    requires f.Cond? ==> Live(db, env, f.from)
    requires f.Value? ==> Live(db, env, f.n)
    ensures Says(Collected(db, env), env, f)
  {
    hide EntryFacts;
    hide Live;
    hide Kept;
    hide Filter;
    var ns, e :| ns in db && Has(db[ns], e) && f in EntryFacts(ns, e, env);
    var self := Self(ns, e);
    FactShape(ns, e, env, f);
    if !e.ContainerEntry? && !e.SandboxEntry? {
      if f.Root? {
        RootLive(db, env, self);
      }
      LiveKept(db, env, self);
      assert Strip(self) == self;
    }
    CollectedHas(db, env, ns, e);
    assert ns in Collected(db, env);
  }

  /** A collection adds no facts. */
  lemma FactWasThere(db: Database, env: Env, f: Fact)
    requires Says(Collected(db, env), env, f)
    ensures Says(db, env, f)
  {
    hide EntryFacts;
    var db' := Collected(db, env);
    var ns, e :| ns in db' && Has(db'[ns], e) && f in EntryFacts(ns, e, env);
    CollectedHas(db, env, ns, e);
  }

  /** The record of a live node is kept, so it makes the references it made before. */
  lemma LiveRecordKept(db: Database, env: Env, n: Node)
    requires Live(db, env, n)
    ensures RecordAt(Collected(db, env), n) == RecordAt(db, n)
  {
    hide Live;
    hide Kept;
    LiveShape(db, env, n);
    LiveKept(db, env, n);
    if RecordAt(db, n).Some? {
      RecordAtIsSelf(db, n);
      CollectedHas(db, env, n.ns, RecordAt(db, n).value);
    }
  }

  lemma BackEdgeSurvives(db: Database, env: Env, n: Node, m: Node)
    requires Live(db, env, n) && BackEdge(db, env, n, m)
    ensures BackEdge(Collected(db, env), env, n, m)
  {
    hide Live;
    hide Says;
    EdgeLive(db, env, n, m);
    if Says(db, env, Back(n, m)) {
      FactSurvives(db, env, Back(n, m));
    } else {
      var test, t :| Says(db, env, Cond(n, m, test)) && Says(db, env, Value(m, t)) && Holds(test, t, env.now);
      FactSurvives(db, env, Cond(n, m, test));
      FactSurvives(db, env, Value(m, t));
    }
  }

  lemma BackEdgeWasThere(db: Database, env: Env, n: Node, m: Node)
    requires BackEdge(Collected(db, env), env, n, m)
    ensures BackEdge(db, env, n, m)
  {
    hide Says;
    if Says(Collected(db, env), env, Back(n, m)) {
      FactWasThere(db, env, Back(n, m));
    } else {
      var db' := Collected(db, env);
      var test, t :| Says(db', env, Cond(n, m, test)) && Says(db', env, Value(m, t)) && Holds(test, t, env.now);
      FactWasThere(db, env, Cond(n, m, test));
      FactWasThere(db, env, Value(m, t));
    }
  }

  /** Around a live node the collection changes no edge. */
  lemma LiveEdges(db: Database, env: Env, n: Node, m: Node)
    requires Live(db, env, n)
    ensures Edge(Collected(db, env), env, n, m) <==> Edge(db, env, n, m)
  {
    hide Live;
    hide EntryTargets;
    LiveRecordKept(db, env, n);
    if BackEdge(db, env, n, m) {
      BackEdgeSurvives(db, env, n, m);
    }
    if BackEdge(Collected(db, env), env, n, m) {
      BackEdgeWasThere(db, env, n, m);
    }
  }

  lemma LiveInduct(db: Database, env: Env, inv: iset<Node>, n: Node)
    requires Live(db, env, n)
    requires forall x :: x in Roots(db, env) ==> x in inv
    requires forall x, y :: x in inv && y in Edges(db, env)(x) ==> y in inv
    ensures n in inv
  {
    ReachInduct(Roots(db, env), Edges(db, env), inv, n);
  }

  /** What was live before a collection is what is live after it. */
  lemma LiveAfter(db: Database, env: Env, n: Node)
    ensures Live(Collected(db, env), env, n) <==> Live(db, env, n)
  {
    hide Says;
    hide Edge;
    hide Live;
    hide Collected;
    var db' := Collected(db, env);
    var both := iset x | Live(db, env, x) && Live(db', env, x);
    var before := iset x | Live(db, env, x);
    forall x | x in Roots(db, env) ensures x in both {
      RootLive(db, env, x);
      FactSurvives(db, env, Root(x));
      RootLive(db', env, x);
    }
    forall x, y | x in both && y in Edges(db, env)(x) ensures y in both {
      EdgeLive(db, env, x, y);
      LiveEdges(db, env, x, y);
      EdgeLive(db', env, x, y);
    }
    forall x | x in Roots(db', env) ensures x in before {
      FactWasThere(db, env, Root(x));
      RootLive(db, env, x);
    }
    forall x, y | x in before && y in Edges(db', env)(x) ensures y in before {
      LiveEdges(db, env, x, y);
      EdgeLive(db, env, x, y);
    }
    if Live(db, env, n) {
      LiveInduct(db, env, both, n);
    }
    if Live(db', env, n) {
      LiveInduct(db', env, before, n);
    }
  }

  lemma KeptAfter(db: Database, env: Env, n: Node)
    ensures Kept(Collected(db, env), env, n) <==> Kept(db, env, n)
  {
    hide Live;
    forall m {
      LiveAfter(db, env, m);
    }
  }

  /** Only nodes of the namespace itself matter to the filter. */
  lemma FilterSame(ns: string, r: Namespace, keep: iset<Node>, keep': iset<Node>)
    requires forall n: Node | n.ns == ns :: n in keep <==> n in keep'
    ensures Filter(ns, r, keep) == Filter(ns, r, keep')
  {
    var a, b := Filter(ns, r, keep), Filter(ns, r, keep');
    assert a.leases == b.leases;
    assert a.images == b.images;
    assert a.blobs == b.blobs;
    assert a.ingests == b.ingests;
    assert a.snapshots == b.snapshots;
  }

  /** Filtering again by the same nodes changes nothing. */
  lemma FilterTwice(ns: string, r: Namespace, keep: iset<Node>)
    ensures Filter(ns, Filter(ns, r, keep), keep) == Filter(ns, r, keep)
  {
    var a, b := Filter(ns, Filter(ns, r, keep), keep), Filter(ns, r, keep);
    assert a.leases == b.leases;
    assert a.images == b.images;
    assert a.blobs == b.blobs;
    assert a.ingests == b.ingests;
    assert a.snapshots == b.snapshots;
  }

  /** With the same clock and no change in between, a second collection removes nothing. */
  lemma SecondCollection(db: Database, env: Env)
    ensures Collected(Collected(db, env), env) == Collected(db, env)
  {
    hide Kept;
    hide Filter;
    var db' := Collected(db, env);
    forall n {
      KeptAfter(db, env, n);
    }
    assert KeptNodes(db', env) == KeptNodes(db, env);
    forall ns | ns in db {
      FilterTwice(ns, db[ns], KeptNodes(db, env));
    }
  }

  // ---- what survivors keep with them ----

  /** A surviving record was reached as a plain or a flat node. */
  lemma SurvivorReached(db: Database, env: Env, n: Node) returns (m: Node)
    requires Kept(db, env, n)
    ensures Live(db, env, m) && Strip(m) == n && WellNamed(n.ns, m)
  {
    hide Live;
    m :| Live(db, env, m) && Strip(m) == n;
    LiveShape(db, env, m);
  }

  lemma TargetKept(db: Database, env: Env, m: Node, t: Node)
    requires Live(db, env, m) && t in RecordTargets(db, env, m)
    ensures Kept(db, env, Strip(t))
  {
    EdgeLive(db, env, m, t);
    LiveKept(db, env, t);
  }

  lemma KeptBlob(db: Database, env: Env, ns: string, d: string)
    requires ns in db && d in db[ns].blobs && Kept(db, env, Node(CONTENT, ns, d))
    ensures d in Collected(db, env)[ns].blobs
  {
  }

  lemma KeptSnapshot(db: Database, env: Env, ns: string, ss: Snapshotter, name: string)
    requires ns in db && (ss, name) in db[ns].snapshots
    ensures (ss, name) in Collected(db, env)[ns].snapshots <==> Kept(db, env, Node(SNAPSHOT, ns, SnapKey(ss, name)))
  {
    hide Kept;
  }

  lemma ParentSurvives(db: Database, env: Env, ns: string, ss: Snapshotter, name: string)
    requires ns in db && (ss, name) in Collected(db, env)[ns].snapshots
    requires var p := db[ns].snapshots[(ss, name)].parent; p != "" && (ss, p) in db[ns].snapshots
    ensures (ss, db[ns].snapshots[(ss, name)].parent) in Collected(db, env)[ns].snapshots
  {
    hide Live;
    hide LabelTargets;
    hide Kept;
    KeptSnapshot(db, env, ns, ss, name);
    KeptSnapshot(db, env, ns, ss, db[ns].snapshots[(ss, name)].parent);
    var m := SurvivorReached(db, env, Node(SNAPSHOT, ns, SnapKey(ss, name)));
    SnapKeyCut(ss, name);
    TargetKept(db, env, m, Node(m.typ, ns, SnapKey(ss, db[ns].snapshots[(ss, name)].parent)));
  }

  ghost predicate ParentLink(r: Namespace, ss: Snapshotter, name: string, parent: string) {
    parent != "" && (ss, name) in r.snapshots && r.snapshots[(ss, name)].parent == parent
  }

  /** `names` follows parent links; all but its last snapshot must exist. */
  ghost predicate ParentPath(r: Namespace, ss: Snapshotter, names: seq<string>) {
    names != [] && forall i, j :: 0 <= i < j < |names| && j == i + 1 ==> ParentLink(r, ss, names[i], names[j])
  }

  lemma PathTail(r: Namespace, ss: Snapshotter, names: seq<string>)
    requires ParentPath(r, ss, names) && |names| > 1
    ensures ParentPath(r, ss, names[1..]) && ParentLink(r, ss, names[0], names[1])
  {
    hide ParentLink;
    var t := names[1..];
    var zero, one := 0, 1;
    assert ParentLink(r, ss, names[zero], names[one]);
    forall i, j | 0 <= i < j < |t| && j == i + 1 ensures ParentLink(r, ss, t[i], t[j]) {
      var i', j' := i + 1, j + 1;
      assert t[i] == names[i'] && t[j] == names[j'];
    }
  }

  lemma PathMember(r: Namespace, ss: Snapshotter, names: seq<string>, i: nat)
    requires ParentPath(r, ss, names) && (ss, names[|names| - 1]) in r.snapshots && i < |names|
    ensures (ss, names[i]) in r.snapshots
  {
    if i < |names| - 1 {
      var j := i + 1;
      assert ParentLink(r, ss, names[i], names[j]);
    }
  }

  /** A surviving snapshot keeps its whole parent chain, whether it was leased flat or plain. */
  lemma {:induction false} ChainSurvives(db: Database, env: Env, ns: string, ss: Snapshotter, names: seq<string>)
    requires ns in db && ParentPath(db[ns], ss, names) && (ss, names[|names| - 1]) in db[ns].snapshots
    requires (ss, names[0]) in Collected(db, env)[ns].snapshots
    ensures forall i :: 0 <= i < |names| ==> (ss, names[i]) in Collected(db, env)[ns].snapshots
    decreases |names|
  {
    hide Collected;
    hide ParentPath;
    if |names| > 1 {
      PathTail(db[ns], ss, names);
      PathMember(db[ns], ss, names, 1);
      ParentSurvives(db, env, ns, ss, names[0]);
      ChainSurvives(db, env, ns, ss, names[1..]);
    }
  }

  /** A surviving image keeps its target blob. */
  lemma TargetSurvives(db: Database, env: Env, ns: string, name: string, d: string)
    requires ns in db && name in Collected(db, env)[ns].images
    requires db[ns].images[name].target == Some(d) && d in db[ns].blobs
    ensures d in Collected(db, env)[ns].blobs
  {
    hide Live;
    hide LabelTargets;
    hide Kept;
    var m := SurvivorReached(db, env, Node(IMAGE, ns, name));
    TargetKept(db, env, m, Node(if m.typ == IMAGE_FLAT then CONTENT_FLAT else CONTENT, ns, d));
    KeptBlob(db, env, ns, d);
  }

  /** A surviving ingest keeps the blob it expects. */
  lemma ExpectedSurvives(db: Database, env: Env, ns: string, ref: string)
    requires ns in db && ref in Collected(db, env)[ns].ingests
    requires var d := db[ns].ingests[ref].expected; d != "" && d in db[ns].blobs
    ensures db[ns].ingests[ref].expected in Collected(db, env)[ns].blobs
  {
    hide Live;
    hide LabelTargets;
    hide Kept;
    var m := SurvivorReached(db, env, Node(INGEST, ns, ref));
    TargetKept(db, env, m, Node(CONTENT, ns, db[ns].ingests[ref].expected));
    KeptBlob(db, env, ns, db[ns].ingests[ref].expected);
  }

  /** No collection removes the snapshot of an existing container. */
  lemma ContainerSnapshotSurvives(db: Database, env: Env, ns: string, id: string, ss: Snapshotter)
    requires ns in db && id in db[ns].containers
    requires var c := db[ns].containers[id]; c.snapshotter == ss != "" && (ss, c.snapshotKey) in db[ns].snapshots
    ensures (ss, db[ns].containers[id].snapshotKey) in Collected(db, env)[ns].snapshots
  {
    hide Live;
    hide LabelTargets;
    hide LabelFacts;
    hide Kept;
    hide Collected;
    var c := db[ns].containers[id];
    KeptSnapshot(db, env, ns, ss, c.snapshotKey);
    var n := Node(CONTAINER, ns, id);
    assert Root(n) in EntryFacts(ns, ContainerEntry(id, c), env);
    RootLive(db, env, n);
    TargetKept(db, env, n, Node(SNAPSHOT, ns, SnapKey(ss, c.snapshotKey)));
  }
}
