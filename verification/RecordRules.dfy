/**
 The collector's roots and edges said once more, record by record and label by
 label, and what they mean for the records themselves: how long a lease, an image
 and an ingest last, and which labels keep what.
 */
module RecordRules {
  import opened Bytes
  import opened Records
  import opened LabelRefs
  import opened MarkSpec
  import opened CollectorLaws
  import opened LabelRules

  /** There is no expiry label, or it does not parse, or its moment has not passed. */
  predicate Timely(labels: Labels, env: Env) {
    EXPIRE !in labels || env.parseTime(labels[EXPIRE]).None? || env.now <= env.parseTime(labels[EXPIRE]).value
  }

  lemma TimelyExact(labels: Labels, env: Env)
    ensures Timely(labels, env) <==> !Expired(labels, env)
  {
    Keys();
  }

  /** The type of a listed node: the flat label sets bit 0x20, except for ingests. */
  function ListedType(l: Lease, t: ResourceType): ResourceType
    requires t <= RESOURCE_MAX
  {
    if FLAT in l.labels then t + 0x20 else t
  }

  ghost predicate LeaseNames(ns: string, l: Lease, n: Node) {
    && n.ns == ns
    && (|| (n.typ == ListedType(l, CONTENT) && n.key in l.content)
        || (n.typ == ListedType(l, IMAGE) && n.key in l.images)
        || (n.typ == INGEST && n.key in l.ingests)
        || (n.typ == ListedType(l, SNAPSHOT) && exists s :: s in l.snapshots && n.key == s.0 + "/" + s.1))
  }

  /** A lease that lasts is a root, and so is what it lists. */
  ghost predicate LeaseRoot(ns: string, l: Lease, id: string, env: Env, n: Node) {
    Timely(l.labels, env) && (n == Node(LEASE, ns, id) || LeaseNames(ns, l, n))
  }

  /** An ingest with an expiry lasts until then; one without it needs a lease. */
  predicate Unexpired(i: Ingest, env: Env) {
    i.expireAt.At? && env.now <= i.expireAt.time
  }

  function SnapshotNode(ns: string, k: (Snapshotter, string)): Node {
    Node(SNAPSHOT, ns, k.0 + "/" + k.1)
  }

  ghost predicate SnapshotRoot(ns: string, r: Namespace, k: (Snapshotter, string), n: Node) {
    k in r.snapshots && MarkedRoot(r.snapshots[k].labels) && n == SnapshotNode(ns, k)
  }

  ghost predicate SnapshotAttached(ns: string, r: Namespace, k: (Snapshotter, string), n: Node, m: Node) {
    k in r.snapshots && m == SnapshotNode(ns, k) && RefersBack(ns, r.snapshots[k].labels, n)
  }

  /** Something in the namespace makes `n` a root. */
  ghost predicate RootIn(ns: string, r: Namespace, env: Env, n: Node) {
    || (exists id :: id in r.leases && LeaseRoot(ns, r.leases[id], id, env, n))
    || (exists k :: k in r.images && Timely(r.images[k].labels, env) && n == Node(IMAGE, ns, k))
    || (exists k :: k in r.ingests && Unexpired(r.ingests[k], env) && n == Node(INGEST, ns, k))
    || (exists k :: k in r.blobs && MarkedRoot(r.blobs[k].labels) && n == Node(CONTENT, ns, k))
    || (exists k :: k in r.containers && n == Node(CONTAINER, ns, k))
    || (exists k: (Snapshotter, string) :: SnapshotRoot(ns, r, k, n))
    || (exists k :: k in r.sandboxes && Refers(ns, r.sandboxes[k].labels, n))
  }

  /** The record behind `n` names `m`, by a field or a reference label. */
  ghost predicate NamesNode(r: Namespace, n: Node, m: Node) {
    || (n.typ == CONTENT && n.key in r.blobs && Refers(n.ns, r.blobs[n.key].labels, m))
    || (n.typ == INGEST && n.key in r.ingests && r.ingests[n.key].expected != ""
        && m == Node(CONTENT, n.ns, r.ingests[n.key].expected))
    || (n.typ == IMAGE && n.key in r.images
        && (Refers(n.ns, r.images[n.key].labels, m)
            || (r.images[n.key].target.Some? && m == Node(CONTENT, n.ns, r.images[n.key].target.value))))
    || (n.typ == IMAGE_FLAT && n.key in r.images
        && r.images[n.key].target.Some? && m == Node(CONTENT_FLAT, n.ns, r.images[n.key].target.value))
    || (n.typ == CONTAINER && n.key in r.containers
        && (Refers(n.ns, r.containers[n.key].labels, m)
            || (r.containers[n.key].snapshotter != ""
                && m == Node(SNAPSHOT, n.ns, r.containers[n.key].snapshotter + "/" + r.containers[n.key].snapshotKey))))
    || ((n.typ == SNAPSHOT || n.typ == SNAPSHOT_FLAT) && SnapshotNames(r, n, m))
  }

  /** A snapshot names its parent, flat if it is reached flat, and, reached plain, what its labels refer to. */
  ghost predicate SnapshotNames(r: Namespace, n: Node, m: Node) {
    exists k: (Snapshotter, string) :: k in r.snapshots && n.key == k.0 + "/" + k.1
      && ((n.typ == SNAPSHOT && Refers(n.ns, r.snapshots[k].labels, m))
          || (r.snapshots[k].parent != "" && m == Node(n.typ, n.ns, k.0 + "/" + r.snapshots[k].parent)))
  }

  /** The record behind `m` attaches itself to `n` by a back reference label. */
  ghost predicate Attached(ns: string, r: Namespace, env: Env, n: Node, m: Node) {
    || (exists k :: k in r.blobs && m == Node(CONTENT, ns, k) && RefersBack(ns, r.blobs[k].labels, n))
    || (exists k :: k in r.containers && m == Node(CONTAINER, ns, k) && RefersBack(ns, r.containers[k].labels, n))
    || (exists k: (Snapshotter, string) :: SnapshotAttached(ns, r, k, n, m))
    || (exists k :: k in r.images && !Timely(r.images[k].labels, env) && m == Node(IMAGE, ns, k)
          && RefersBack(ns, r.images[k].labels, n))
  }

  /** The blob or image behind `n` refers to snapshot `m` on the condition `test`. */
  ghost predicate Conditional(ns: string, r: Namespace, env: Env, n: Node, m: Node, test: Test) {
    || (exists k :: k in r.blobs && n == Node(CONTENT, ns, k) && Asks(ns, r.blobs[k].labels, m, test, env))
    || (exists k :: k in r.images && n == Node(IMAGE, ns, k) && Asks(ns, r.images[k].labels, m, test, env))
  }

  /** Snapshot `m` says that it was last used at `t`. */
  ghost predicate LastUsed(ns: string, r: Namespace, env: Env, m: Node, t: int) {
    exists k: (Snapshotter, string) ::
      k in r.snapshots && m == SnapshotNode(ns, k) && UsedAt(r.snapshots[k].labels, t, env)
  }

  // ---- what records say ----

  /** The fact that an object's labels state, if the callback it needs is set. */
  ghost predicate LabelsSay(self: Node, labels: Labels, cb: Callbacks, env: Env, f: Fact) {
    match f
    case Root(n) => (cb.fn && Refers(self.ns, labels, n)) || (cb.root && n == self && MarkedRoot(labels))
    case Back(n, m) => cb.bref && m == self && RefersBack(self.ns, labels, n)
    case Cond(n, m, test) => cb.cond && n == self && Asks(self.ns, labels, m, test, env)
    case Value(n, t) => cb.condVal && n == self && UsedAt(labels, t, env)
  }

  lemma CalledFor(self: Node, labels: Labels, cb: Callbacks, env: Env, f: Fact) returns (k: string, c: Call)
    requires LabelsSay(self, labels, cb, env, f)
    ensures k in labels && CallSays(self.ns, k, labels[k], cb, env, c) && Learned(self, c) == f
  {
    hide LabelRefers;
    hide LabelRefersBack;
    hide LabelAsks;
    hide HasPrefix;
    match f
    case Root(n) =>
      if cb.fn && Refers(self.ns, labels, n) {
        k :| k in labels && LabelRefers(self.ns, k, labels[k], n);
        c := CallRef(n);
      } else {
        k :| k in labels && HasPrefix(k, ROOT);
        c := CallRoot;
      }
    case Back(n, m) =>
      k :| k in labels && LabelRefersBack(self.ns, k, labels[k], n);
      c := CallBackRef(n);
    case Cond(n, m, test) =>
      k :| k in labels && LabelAsks(self.ns, k, labels[k], m, test, env);
      c := CallCond(m, test);
    case Value(n, t) =>
      k :| k in labels && HasPrefix(k, VALUE_USEDAT) && env.parseTime(labels[k]) == Some(t);
      c := CallValue(t);
  }

  lemma LabelFactExact(self: Node, labels: Labels, cb: Callbacks, env: Env, f: Fact)
    requires env.handlers == HANDLERS
    ensures f in LabelFacts(self, labels, cb, env) <==> LabelsSay(self, labels, cb, env, f)
  {
    hide CallSet;
    hide LabelRefers;
    hide LabelRefersBack;
    hide LabelAsks;
    hide HasPrefix;
    if f in LabelFacts(self, labels, cb, env) {
      var c :| c in CallSet(self.ns, labels, cb, env) && Learned(self, c) == f;
      CallsExact(self.ns, labels, cb, env, c);
    }
    if LabelsSay(self, labels, cb, env, f) {
      var k, c := CalledFor(self, labels, cb, env, f);
      CallsExact(self.ns, labels, cb, env, c);
    }
  }

  lemma LabelTargetExact(ns: string, labels: Labels, env: Env, m: Node)
    requires env.handlers == HANDLERS
    ensures m in LabelTargets(ns, labels, env) <==> Refers(ns, labels, m)
  {
    hide CallSet;
    hide LabelRefers;
    CallsExact(ns, labels, CB_FN, env, CallRef(m));
  }

  lemma LeasedExact(ns: string, l: Lease, n: Node)
    ensures n in Leased(ns, l) <==> LeaseNames(ns, l, n)
  {
    Keys();
    if n in Leased(ns, l) && n.key !in l.content && n.key !in l.ingests && n.key !in l.images {
      var s :| s in l.snapshots && n.key == SnapKey(s.0, s.1);
      assert n.key == s.0 + "/" + s.1;
    }
    forall s: (Snapshotter, string) ensures SnapKey(s.0, s.1) == s.0 + "/" + s.1 {
    }
  }

  /** What one record says, spelled out for each kind. */
  ghost predicate EntrySays(ns: string, e: Entry, env: Env, f: Fact) {
    var self := Self(ns, e);
    match e
    case LeaseEntry(_, l) => Timely(l.labels, env) && f.Root? && (f.n == self || LeaseNames(ns, l, f.n))
    case ImageEntry(_, i) =>
      || (Timely(i.labels, env) && f == Root(self))
      || (f.Back? && !Timely(i.labels, env) && f.to == self && RefersBack(ns, i.labels, f.from))
      || (f.Cond? && f.from == self && Asks(ns, i.labels, f.to, f.test, env))
    case IngestEntry(_, i) => i.expireAt.At? && env.now <= i.expireAt.time && f == Root(self)
    case BlobEntry(_, b) =>
      || (f == Root(self) && MarkedRoot(b.labels))
      || (f.Back? && f.to == self && RefersBack(ns, b.labels, f.from))
      || (f.Cond? && f.from == self && Asks(ns, b.labels, f.to, f.test, env))
    case ContainerEntry(_, c) => f == Root(self) || (f.Back? && f.to == self && RefersBack(ns, c.labels, f.from))
    case SnapshotEntry(_, _, s) =>
      || (f == Root(self) && MarkedRoot(s.labels))
      || (f.Back? && f.to == self && RefersBack(ns, s.labels, f.from))
      || (f.Value? && f.n == self && UsedAt(s.labels, f.time, env))
    case SandboxEntry(_, s) => f.Root? && Refers(ns, s.labels, f.n)
  }

  ghost function LabelsOf(e: Entry): Labels {
    match e
    case LeaseEntry(_, l) => l.labels
    case ImageEntry(_, i) => i.labels
    case IngestEntry(_, i) => map[]
    case BlobEntry(_, b) => b.labels
    case ContainerEntry(_, c) => c.labels
    case SnapshotEntry(_, _, s) => s.labels
    case SandboxEntry(_, s) => s.labels
  }

  lemma EntryExact(ns: string, e: Entry, env: Env, f: Fact)
    requires env.handlers == HANDLERS
    ensures f in EntryFacts(ns, e, env) <==> EntrySays(ns, e, env, f)
  {
    hide LabelFacts;
    hide Leased;
    hide LeaseNames;
    hide Expired;
    hide Timely;
    hide Refers;
    hide RefersBack;
    hide MarkedRoot;
    hide Asks;
    hide UsedAt;
    var self, labels := Self(ns, e), LabelsOf(e);
    TimelyExact(labels, env);
    LabelFactExact(self, labels, CB_COND, env, f);
    LabelFactExact(self, labels, CB_BREF_COND, env, f);
    LabelFactExact(self, labels, CB_BREF_ROOT_COND, env, f);
    LabelFactExact(self, labels, CB_BREF, env, f);
    LabelFactExact(self, labels, CB_BREF_ROOT_VALUE, env, f);
    LabelFactExact(self, labels, CB_FN, env, f);
    if e.LeaseEntry? && f.Root? {
      LeasedExact(ns, e.lease, f.n);
    }
  }

  // ---- roots and edges ----

  ghost predicate IsRoot(db: Database, env: Env, n: Node) {
    exists ns :: ns in db && RootIn(ns, db[ns], env, n)
  }

  /** The condition is met by a use at `t`. */
  predicate Passes(test: Test, t: int, now: int) {
    match test
    case Younger(d) => now < t + d
    case Older(d) => t + d < now
  }

  ghost predicate LeadsTo(db: Database, env: Env, n: Node, m: Node) {
    || (n.ns in db && NamesNode(db[n.ns], n, m))
    || (exists ns :: ns in db && Attached(ns, db[ns], env, n, m))
    || (exists ns, ns', test, t :: ns in db && ns' in db && Conditional(ns, db[ns], env, n, m, test)
          && LastUsed(ns', db[ns'], env, m, t) && Passes(test, t, env.now))
  }

  /** A record in `ns` that says `f`. */
  lemma SaidBy(db: Database, env: Env, ns: string, e: Entry, f: Fact)
    requires env.handlers == HANDLERS && ns in db && Has(db[ns], e) && EntrySays(ns, e, env, f)
    ensures Says(db, env, f)
  {
    hide EntrySays;
    hide EntryFacts;
    EntryExact(ns, e, env, f);
  }

  lemma RootEntry(ns: string, r: Namespace, env: Env, n: Node) returns (e: Entry)
    requires RootIn(ns, r, env, n)
    ensures Has(r, e) && EntrySays(ns, e, env, Root(n))
  {
    hide Refers;
    hide MarkedRoot;
    hide LeaseNames;
    hide Timely;
    if id :| id in r.leases && LeaseRoot(ns, r.leases[id], id, env, n) {
      e := LeaseEntry(id, r.leases[id]);
    } else if k :| k in r.images && Timely(r.images[k].labels, env) && n == Node(IMAGE, ns, k) {
      e := ImageEntry(k, r.images[k]);
    } else if k :| k in r.ingests && Unexpired(r.ingests[k], env) && n == Node(INGEST, ns, k) {
      e := IngestEntry(k, r.ingests[k]);
    } else if k :| k in r.blobs && MarkedRoot(r.blobs[k].labels) && n == Node(CONTENT, ns, k) {
      e := BlobEntry(k, r.blobs[k]);
    } else if k :| k in r.containers && n == Node(CONTAINER, ns, k) {
      e := ContainerEntry(k, r.containers[k]);
    } else if k: (Snapshotter, string) :| SnapshotRoot(ns, r, k, n) {
      e := SnapshotEntry(k.0, k.1, r.snapshots[k]);
    } else {
      var k :| k in r.sandboxes && Refers(ns, r.sandboxes[k].labels, n);
      e := SandboxEntry(k, r.sandboxes[k]);
    }
  }

  lemma EntryRoot(ns: string, r: Namespace, env: Env, e: Entry, n: Node)
    requires Has(r, e) && EntrySays(ns, e, env, Root(n))
    ensures RootIn(ns, r, env, n)
  {
    hide Refers;
    hide MarkedRoot;
    hide LeaseNames;
    hide Timely;
    if e.SnapshotEntry? {
      var k: (Snapshotter, string) := (e.ss, e.name);
      assert SnapshotRoot(ns, r, k, n);
    }
  }

  lemma RootsExact(db: Database, env: Env, n: Node)
    requires env.handlers == HANDLERS
    ensures Says(db, env, Root(n)) <==> IsRoot(db, env, n)
  {
    hide EntryFacts;
    hide EntrySays;
    hide RootIn;
    if Says(db, env, Root(n)) {
      var ns, e :| ns in db && Has(db[ns], e) && Root(n) in EntryFacts(ns, e, env);
      EntryExact(ns, e, env, Root(n));
      EntryRoot(ns, db[ns], env, e, n);
    }
    if ns :| ns in db && RootIn(ns, db[ns], env, n) {
      var e := RootEntry(ns, db[ns], env, n);
      SaidBy(db, env, ns, e, Root(n));
    }
  }

  lemma AttachedEntry(ns: string, r: Namespace, env: Env, n: Node, m: Node) returns (e: Entry)
    requires Attached(ns, r, env, n, m)
    ensures Has(r, e) && EntrySays(ns, e, env, Back(n, m))
  {
    hide RefersBack;
    hide Timely;
    if k :| k in r.blobs && m == Node(CONTENT, ns, k) && RefersBack(ns, r.blobs[k].labels, n) {
      e := BlobEntry(k, r.blobs[k]);
    } else if k :| k in r.containers && m == Node(CONTAINER, ns, k) && RefersBack(ns, r.containers[k].labels, n) {
      e := ContainerEntry(k, r.containers[k]);
    } else if k: (Snapshotter, string) :| SnapshotAttached(ns, r, k, n, m) {
      e := SnapshotEntry(k.0, k.1, r.snapshots[k]);
    } else {
      var k :| k in r.images && !Timely(r.images[k].labels, env) && m == Node(IMAGE, ns, k)
        && RefersBack(ns, r.images[k].labels, n);
      e := ImageEntry(k, r.images[k]);
    }
  }

  lemma EntryAttached(ns: string, r: Namespace, env: Env, e: Entry, n: Node, m: Node)
    requires Has(r, e) && EntrySays(ns, e, env, Back(n, m))
    ensures Attached(ns, r, env, n, m)
  {
    hide RefersBack;
    hide Timely;
    if e.SnapshotEntry? {
      var k: (Snapshotter, string) := (e.ss, e.name);
      assert SnapshotAttached(ns, r, k, n, m);
    }
  }

  lemma BackExact(db: Database, env: Env, n: Node, m: Node)
    requires env.handlers == HANDLERS
    ensures Says(db, env, Back(n, m)) <==> exists ns :: ns in db && Attached(ns, db[ns], env, n, m)
  {
    hide EntryFacts;
    hide EntrySays;
    hide Attached;
    if Says(db, env, Back(n, m)) {
      var ns, e :| ns in db && Has(db[ns], e) && Back(n, m) in EntryFacts(ns, e, env);
      EntryExact(ns, e, env, Back(n, m));
      EntryAttached(ns, db[ns], env, e, n, m);
    }
    if ns :| ns in db && Attached(ns, db[ns], env, n, m) {
      var e := AttachedEntry(ns, db[ns], env, n, m);
      SaidBy(db, env, ns, e, Back(n, m));
    }
  }

  lemma CondExact(db: Database, env: Env, n: Node, m: Node, test: Test)
    requires env.handlers == HANDLERS
    ensures Says(db, env, Cond(n, m, test)) <==> exists ns :: ns in db && Conditional(ns, db[ns], env, n, m, test)
  {
    hide EntryFacts;
    hide Asks;
    var f := Cond(n, m, test);
    if Says(db, env, f) {
      var ns, e :| ns in db && Has(db[ns], e) && f in EntryFacts(ns, e, env);
      EntryExact(ns, e, env, f);
      assert Conditional(ns, db[ns], env, n, m, test);
    }
    if ns :| ns in db && Conditional(ns, db[ns], env, n, m, test) {
      if k :| k in db[ns].blobs && n == Node(CONTENT, ns, k) && Asks(ns, db[ns].blobs[k].labels, m, test, env) {
        SaidBy(db, env, ns, BlobEntry(k, db[ns].blobs[k]), f);
      } else {
        var k :| k in db[ns].images && n == Node(IMAGE, ns, k) && Asks(ns, db[ns].images[k].labels, m, test, env);
        SaidBy(db, env, ns, ImageEntry(k, db[ns].images[k]), f);
      }
    }
  }

  lemma ValueExact(db: Database, env: Env, m: Node, t: int)
    requires env.handlers == HANDLERS
    ensures Says(db, env, Value(m, t)) <==> exists ns :: ns in db && LastUsed(ns, db[ns], env, m, t)
  {
    hide EntryFacts;
    hide UsedAt;
    var f := Value(m, t);
    if Says(db, env, f) {
      var ns, e :| ns in db && Has(db[ns], e) && f in EntryFacts(ns, e, env);
      EntryExact(ns, e, env, f);
      assert (e.ss, e.name) in db[ns].snapshots && SnapKey(e.ss, e.name) == e.ss + "/" + e.name;
      assert LastUsed(ns, db[ns], env, m, t);
    }
    if ns :| ns in db && LastUsed(ns, db[ns], env, m, t) {
      var k: (Snapshotter, string) :| k in db[ns].snapshots && m == SnapshotNode(ns, k)
        && UsedAt(db[ns].snapshots[k].labels, t, env);
      SaidBy(db, env, ns, SnapshotEntry(k.0, k.1, db[ns].snapshots[k]), f);
    }
  }

  lemma SnapshotRecord(db: Database, n: Node)
    requires n.ns in db && (n.typ == SNAPSHOT || n.typ == SNAPSHOT_FLAT) && '/' in n.key
    ensures var k: (Snapshotter, string) := (Before(n.key, '/'), After(n.key, '/'));
      && n.key == k.0 + "/" + k.1
      && (k in db[n.ns].snapshots ==> RecordAt(db, n) == Some(SnapshotEntry(k.0, k.1, db[n.ns].snapshots[k])))
      && (k !in db[n.ns].snapshots ==> RecordAt(db, n) == None)
      && forall x: (Snapshotter, string) :: n.key == x.0 + "/" + x.1 ==> x == k
  {
    SnapKeyJoin(n.key);
    forall x: (Snapshotter, string) | n.key == x.0 + "/" + x.1 ensures x == (Before(n.key, '/'), After(n.key, '/')) {
      SnapKeyCut(x.0, x.1);
    }
  }

  lemma SnapshotTargets(db: Database, env: Env, n: Node, m: Node)
    requires env.handlers == HANDLERS && n.ns in db && '/' in n.key && (n.typ == SNAPSHOT || n.typ == SNAPSHOT_FLAT)
    ensures m in RecordTargets(db, env, n) <==> SnapshotNames(db[n.ns], n, m)
  {
    hide LabelTargets;
    hide Refers;
    hide RecordAt;
    SnapshotRecord(db, n);
    if RecordAt(db, n).Some? {
      LabelTargetExact(n.ns, LabelsOf(RecordAt(db, n).value), env, m);
    }
  }

  lemma OtherTargets(db: Database, env: Env, n: Node, m: Node)
    requires env.handlers == HANDLERS && n.ns in db && n.typ != SNAPSHOT && n.typ != SNAPSHOT_FLAT
    ensures m in RecordTargets(db, env, n) <==> NamesNode(db[n.ns], n, m)
  {
    hide LabelTargets;
    hide Refers;
    hide RecordAt;
    hide SnapshotNames;
    OtherRecord(db, n);
    if RecordAt(db, n).Some? {
      LabelTargetExact(n.ns, LabelsOf(RecordAt(db, n).value), env, m);
    }
  }

  lemma TargetsExact(db: Database, env: Env, n: Node, m: Node)
    requires env.handlers == HANDLERS && (n.typ == SNAPSHOT || n.typ == SNAPSHOT_FLAT ==> '/' in n.key)
    ensures m in RecordTargets(db, env, n) <==> n.ns in db && NamesNode(db[n.ns], n, m)
  {
    hide RecordAt;
    hide EntryTargets;
    hide SnapshotNames;
    hide Refers;
    if n.ns !in db {
      NoRecord(db, n);
    } else if n.typ == SNAPSHOT || n.typ == SNAPSHOT_FLAT {
      SnapshotTargets(db, env, n, m);
    } else {
      OtherTargets(db, env, n, m);
    }
  }

  lemma NoRecord(db: Database, n: Node)
    requires n.ns !in db
    ensures RecordAt(db, n) == None
  {
  }

  lemma OtherRecord(db: Database, n: Node)
    requires n.ns in db && n.typ != SNAPSHOT && n.typ != SNAPSHOT_FLAT
    ensures var r := db[n.ns];
      RecordAt(db, n) ==
        if n.typ == CONTENT && n.key in r.blobs then Some(BlobEntry(n.key, r.blobs[n.key]))
        else if (n.typ == IMAGE || n.typ == IMAGE_FLAT) && n.key in r.images
        then Some(ImageEntry(n.key, r.images[n.key]))
        else if n.typ == INGEST && n.key in r.ingests then Some(IngestEntry(n.key, r.ingests[n.key]))
        else if n.typ == CONTAINER && n.key in r.containers then Some(ContainerEntry(n.key, r.containers[n.key]))
        else None
  {
  }

  lemma HoldsExact(test: Test, t: int, now: int)
    ensures Holds(test, t, now) <==> Passes(test, t, now)
  {
  }

  lemma EdgesExact(db: Database, env: Env, n: Node, m: Node)
    requires env.handlers == HANDLERS && (n.typ == SNAPSHOT || n.typ == SNAPSHOT_FLAT ==> '/' in n.key)
    ensures Edge(db, env, n, m) <==> LeadsTo(db, env, n, m)
  {
    hide Says;
    hide RecordTargets;
    hide NamesNode;
    hide Attached;
    hide Conditional;
    hide LastUsed;
    hide Holds;
    hide Passes;
    TargetsExact(db, env, n, m);
    BackExact(db, env, n, m);
    forall test ensures Says(db, env, Cond(n, m, test)) <==>
      exists ns :: ns in db && Conditional(ns, db[ns], env, n, m, test)
    {
      CondExact(db, env, n, m, test);
    }
    forall t ensures Says(db, env, Value(m, t)) <==> exists ns :: ns in db && LastUsed(ns, db[ns], env, m, t) {
      ValueExact(db, env, m, t);
    }
    forall test, t ensures Holds(test, t, env.now) <==> Passes(test, t, env.now) {
      HoldsExact(test, t, env.now);
    }
  }

  /** A node is live exactly when it is a root or a live node leads to it. */
  lemma LiveExactly(db: Database, env: Env, m: Node)
    requires env.handlers == HANDLERS
    ensures Live(db, env, m) <==> IsRoot(db, env, m) || exists n :: Live(db, env, n) && LeadsTo(db, env, n, m)
  {
    hide Live;
    hide Says;
    hide Edge;
    hide IsRoot;
    hide LeadsTo;
    var inv := iset x | Live(db, env, x)
                 && (IsRoot(db, env, x) || exists n :: Live(db, env, n) && LeadsTo(db, env, n, x));
    forall x | x in Roots(db, env) ensures x in inv {
      RootsExact(db, env, x);
      RootLive(db, env, x);
    }
    forall x, y | x in inv && y in Edges(db, env)(x) ensures y in inv {
      LiveShape(db, env, x);
      EdgesExact(db, env, x, y);
      EdgeLive(db, env, x, y);
    }
    if Live(db, env, m) {
      LiveInduct(db, env, inv, m);
    }
    if IsRoot(db, env, m) {
      RootsExact(db, env, m);
      RootLive(db, env, m);
    }
    if n :| Live(db, env, n) && LeadsTo(db, env, n, m) {
      LiveShape(db, env, n);
      EdgesExact(db, env, n, m);
      EdgeLive(db, env, n, m);
    }
  }

  // ---- what it means for records ----

  /** `m` is a root, or a live node leads to it. */
  ghost predicate Reason(db: Database, env: Env, m: Node) {
    IsRoot(db, env, m) || exists n :: Live(db, env, n) && LeadsTo(db, env, n, m)
  }

  function Flattened(n: Node): Node {
    if n.typ == CONTENT || n.typ == SNAPSHOT || n.typ == IMAGE then n.(typ := n.typ + 0x20) else n
  }

  lemma KeptExactly(db: Database, env: Env, n: Node)
    requires env.handlers == HANDLERS && n.typ <= RESOURCE_MAX
    ensures Kept(db, env, n) <==> Reason(db, env, n) || Reason(db, env, Flattened(n))
  {
    hide Live;
    hide Reason;
    LiveReason(db, env, n);
    LiveReason(db, env, Flattened(n));
    if Kept(db, env, n) {
      var m :| Live(db, env, m) && Strip(m) == n;
      LiveShape(db, env, m);
      assert m == n || m == Flattened(n);
    }
    if Live(db, env, n) {
      LiveKept(db, env, n);
    }
    if Live(db, env, Flattened(n)) {
      LiveKept(db, env, Flattened(n));
    }
  }

  lemma LiveReason(db: Database, env: Env, n: Node)
    requires env.handlers == HANDLERS
    ensures Live(db, env, n) <==> Reason(db, env, n)
  {
    hide Live;
    hide IsRoot;
    hide LeadsTo;
    LiveExactly(db, env, n);
  }

  /** A record survives exactly when its node, or the flat form of it, is a root or is led to by a live node. */
  lemma SurvivesExactly(db: Database, env: Env, ns: string, e: Entry)
    requires env.handlers == HANDLERS && ns in db && Has(db[ns], e) && !e.ContainerEntry? && !e.SandboxEntry?
    ensures Has(Collected(db, env)[ns], e) <==>
      Reason(db, env, Self(ns, e)) || Reason(db, env, Flattened(Self(ns, e)))
  {
    hide Reason;
    hide Kept;
    CollectedHas(db, env, ns, e);
    KeptExactly(db, env, Self(ns, e));
  }

  /** Nothing leads to leases and ingests. */
  lemma NotLedTo(db: Database, env: Env, n: Node, m: Node)
    requires LeadsTo(db, env, n, m)
    ensures m.typ != LEASE && m.typ != INGEST
  {
    hide IsNamed;
    hide HasPrefix;
    hide Timely;
    hide AsksFor;
  }

  /** The leases that last and list the object. */
  ghost predicate LeasedBy(r: Namespace, env: Env, lists: Lease -> bool) {
    exists id :: id in r.leases && Timely(r.leases[id].labels, env) && lists(r.leases[id])
  }

  lemma LeaseRoots(db: Database, env: Env, ns: string, id: string)
    requires ns in db
    ensures IsRoot(db, env, Node(LEASE, ns, id)) <==> id in db[ns].leases && Timely(db[ns].leases[id].labels, env)
  {
    hide Timely;
    hide IsNamed;
    hide HasPrefix;
    hide MarkedRoot;
    if id in db[ns].leases && Timely(db[ns].leases[id].labels, env) {
      assert LeaseRoot(ns, db[ns].leases[id], id, env, Node(LEASE, ns, id));
      assert RootIn(ns, db[ns], env, Node(LEASE, ns, id));
    }
  }

  /** A lease lasts exactly until the moment of its expiry label, and forever without one that parses. */
  lemma LeaseLasts(db: Database, env: Env, ns: string, id: string)
    requires env.handlers == HANDLERS && ns in db && id in db[ns].leases
    ensures var labels := db[ns].leases[id].labels;
      id in Collected(db, env)[ns].leases <==>
        || EXPIRE !in labels
        || env.parseTime(labels[EXPIRE]).None?
        || env.now <= env.parseTime(labels[EXPIRE]).value
  {
    hide IsRoot;
    hide LeadsTo;
    hide Live;
    var e, n := LeaseEntry(id, db[ns].leases[id]), Node(LEASE, ns, id);
    SurvivesExactly(db, env, ns, e);
    LeaseRoots(db, env, ns, id);
    forall m | Live(db, env, m) ensures !LeadsTo(db, env, m, n) {
      if LeadsTo(db, env, m, n) {
        NotLedTo(db, env, m, n);
      }
    }
  }

  lemma IngestRoots(db: Database, env: Env, ns: string, ref: string)
    requires ns in db
    ensures IsRoot(db, env, Node(INGEST, ns, ref)) <==>
      || (ref in db[ns].ingests && Unexpired(db[ns].ingests[ref], env))
      || LeasedBy(db[ns], env, (l: Lease) => ref in l.ingests)
  {
    hide Timely;
    hide IsNamed;
    hide HasPrefix;
    hide MarkedRoot;
    var n := Node(INGEST, ns, ref);
    if id :| id in db[ns].leases && Timely(db[ns].leases[id].labels, env) && ref in db[ns].leases[id].ingests {
      assert LeaseRoot(ns, db[ns].leases[id], id, env, n);
      assert RootIn(ns, db[ns], env, n);
    } else if ref in db[ns].ingests && Unexpired(db[ns].ingests[ref], env) {
      assert RootIn(ns, db[ns], env, n);
    }
  }

  /** An ingest lasts exactly until its own expiry, or as long as a lease that lasts lists it. */
  lemma IngestLasts(db: Database, env: Env, ns: string, ref: string)
    requires env.handlers == HANDLERS && ns in db && ref in db[ns].ingests
    ensures ref in Collected(db, env)[ns].ingests <==>
      || (db[ns].ingests[ref].expireAt.At? && env.now <= db[ns].ingests[ref].expireAt.time)
      || exists id :: id in db[ns].leases && Timely(db[ns].leases[id].labels, env) && ref in db[ns].leases[id].ingests
  {
    hide IsRoot;
    hide LeadsTo;
    hide Live;
    hide Timely;
    var e, n := IngestEntry(ref, db[ns].ingests[ref]), Node(INGEST, ns, ref);
    SurvivesExactly(db, env, ns, e);
    IngestRoots(db, env, ns, ref);
    forall m | Live(db, env, m) ensures !LeadsTo(db, env, m, n) {
      if LeadsTo(db, env, m, n) {
        NotLedTo(db, env, m, n);
      }
    }
  }

  lemma ImageRoots(db: Database, env: Env, ns: string, name: string, n: Node)
    requires ns in db && (n == Node(IMAGE, ns, name) || n == Node(IMAGE_FLAT, ns, name))
    ensures IsRoot(db, env, n) ==>
      || (n.typ == IMAGE && name in db[ns].images && Timely(db[ns].images[name].labels, env))
      || LeasedBy(db[ns], env, (l: Lease) => name in l.images)
      || exists k :: k in db[ns].sandboxes && Refers(ns, db[ns].sandboxes[k].labels, n)
  {
    hide Timely;
    hide IsNamed;
    hide HasPrefix;
    hide MarkedRoot;
  }

  /**
   An image lasts until the moment of its expiry label. Past it, it survives exactly
   when a lease that lasts lists it, a sandbox refers to it or a live node leads to it.
   */
  lemma ImageLasts(db: Database, env: Env, ns: string, name: string)
    requires env.handlers == HANDLERS && ns in db && name in db[ns].images
    ensures var labels, n := db[ns].images[name].labels, Node(IMAGE, ns, name);
      name in Collected(db, env)[ns].images <==>
        || EXPIRE !in labels || env.parseTime(labels[EXPIRE]).None? || env.now <= env.parseTime(labels[EXPIRE]).value
        || (exists id ::
              id in db[ns].leases && Timely(db[ns].leases[id].labels, env) && name in db[ns].leases[id].images)
        || (exists k :: k in db[ns].sandboxes && Refers(ns, db[ns].sandboxes[k].labels, n))
        || exists m :: Live(db, env, m) && LeadsTo(db, env, m, n)
  {
    hide LeadsTo;
    hide Live;
    hide Refers;
    hide IsRoot;
    var r, n := db[ns], Node(IMAGE, ns, name);
    SurvivesExactly(db, env, ns, ImageEntry(name, r.images[name]));
    ImageRoots(db, env, ns, name, n);
    ImageRoots(db, env, ns, name, Flattened(n));
    forall m | LeadsTo(db, env, m, Flattened(n)) ensures false {
      NotFlatImage(db, env, m, Flattened(n));
    }
    forall k | k in r.sandboxes && Refers(ns, r.sandboxes[k].labels, Flattened(n)) ensures false {
      RefersPlain(ns, r.sandboxes[k].labels, Flattened(n));
    }
    ImageIsRoot(db, env, ns, name);
  }

  lemma NotFlatImage(db: Database, env: Env, n: Node, m: Node)
    requires LeadsTo(db, env, n, m)
    ensures m.typ != IMAGE_FLAT
  {
    hide IsNamed;
    hide HasPrefix;
    hide Timely;
    hide AsksFor;
  }

  lemma RefersPlain(ns: string, labels: Labels, m: Node)
    requires Refers(ns, labels, m)
    ensures m.typ == CONTENT || m.typ == IMAGE || m.typ == SNAPSHOT
  {
    hide IsNamed;
    hide HasPrefix;
  }

  lemma ImageIsRoot(db: Database, env: Env, ns: string, name: string)
    requires ns in db
    ensures name in db[ns].images && Timely(db[ns].images[name].labels, env) ==> IsRoot(db, env, Node(IMAGE, ns, name))
    ensures forall id ::
      id in db[ns].leases && Timely(db[ns].leases[id].labels, env) && name in db[ns].leases[id].images ==>
      IsRoot(db, env, Node(IMAGE, ns, name)) || IsRoot(db, env, Node(IMAGE_FLAT, ns, name))
    ensures forall k :: k in db[ns].sandboxes && Refers(ns, db[ns].sandboxes[k].labels, Node(IMAGE, ns, name)) ==>
      IsRoot(db, env, Node(IMAGE, ns, name))
  {
    hide Timely;
    hide Refers;
    hide MarkedRoot;
    var r, n, f := db[ns], Node(IMAGE, ns, name), Node(IMAGE_FLAT, ns, name);
    if name in r.images && Timely(r.images[name].labels, env) {
      assert RootIn(ns, r, env, n);
    }
    forall id | id in r.leases && Timely(r.leases[id].labels, env) && name in r.leases[id].images
      ensures IsRoot(db, env, n) || IsRoot(db, env, f)
    {
      var m := if FLAT in r.leases[id].labels then f else n;
      assert LeaseRoot(ns, r.leases[id], id, env, m);
      assert RootIn(ns, r, env, m);
    }
    forall k | k in r.sandboxes && Refers(ns, r.sandboxes[k].labels, n) ensures IsRoot(db, env, n) {
      assert RootIn(ns, r, env, n);
    }
  }

  // ---- a condition from label to survival ----

  /** The value "usedat<x|key", or with '>': what it asks of which snapshot. */
  lemma ConditionRead(v: string, op: char, x: string, key: string, env: Env, d: int)
    requires op == '<' || op == '>'
    requires v == "usedat" + [op] + x + "|" + key && '|' !in x && ',' !in x && !HasPrefix(x, "=")
    requires env.parseDuration(x) == Some(d)
    ensures '|' in v && After(v, '|') == key
    ensures exists c :: c in Split(Before(v, '|'), ',') && AsksFor(c, if op == '<' then Younger(d) else Older(d), env)
  {
    var c := "usedat" + [op] + x;
    assert '|' !in "usedat" && ',' !in "usedat";
    CutJoin(c, '|', key);
    assert v == c + ['|'] + key;
    assert Split(c, ',') == [c];
    assert c[..7] == "usedat" + [op] && c[7..] == x;
    NotTwo(c);
    assert x != [] ==> x[..1] == [x[0]];
    assert AsksFor(c, if op == '<' then Younger(d) else Older(d), env);
    assert Before(v, '|') == c && c in Split(Before(v, '|'), ',');
  }

  /** The key "containerd.io/gc.cond.snapshot.ss" names the snapshotter. */
  lemma SnapshotterRead(ss: Snapshotter, k: string)
    requires k == COND_SNAPSHOT + "." + ss && !HasPrefix(ss, ".")
    ensures HasPrefix(k, COND_SNAPSHOT) && Before(TrimLeft(k[|COND_SNAPSHOT|..]), '/') == ss
  {
    var rest := k[|COND_SNAPSHOT|..];
    assert rest == "." + ss && rest[1..] == ss;
    assert ss != [] ==> ss[..1] == [ss[0]];
    assert TrimLeft(rest) == TrimLeft(ss) == ss;
    NoSlash(ss);
  }

  lemma {:induction false} NoSlash(s: string)
    requires '/' !in s
    ensures Before(s, '/') == s
    decreases |s|
  {
    if s != [] {
      NoSlash(s[1..]);
      assert s == [s[0]] + s[1..];
      assert IndexOf(s, '/') == 1 + IndexOf(s[1..], '/');
    }
  }

  /** The image's label is read as a condition on the snapshot. */
  lemma ConditionSaid(ns: string, r: Namespace, env: Env, name: string, ss: Snapshotter, key: string,
                      op: char, x: string, d: int)
    requires name in r.images && (op == '<' || op == '>')
    requires '|' !in x && ',' !in x && !HasPrefix(x, "=") && env.parseDuration(x) == Some(d) && !HasPrefix(ss, ".")
    requires var k := COND_SNAPSHOT + "." + ss;
      k in r.images[name].labels && r.images[name].labels[k] == "usedat" + [op] + x + "|" + key
    ensures var test := if op == '<' then Younger(d) else Older(d);
      Conditional(ns, r, env, Node(IMAGE, ns, name), SnapshotNode(ns, (ss, key)), test)
  {
    hide AsksFor;
    hide Split;
    hide TrimLeft;
    var k, test := COND_SNAPSHOT + "." + ss, if op == '<' then Younger(d) else Older(d);
    var v, m := r.images[name].labels[k], SnapshotNode(ns, (ss, key));
    ConditionRead(v, op, x, key, env, d);
    SnapshotterRead(ss, k);
    assert LabelAsks(ns, k, v, m, test, env);
    assert Asks(ns, r.images[name].labels, m, test, env);
  }

  lemma UseSaid(ns: string, r: Namespace, env: Env, p: (Snapshotter, string), t: int)
    requires p in r.snapshots && VALUE_USEDAT in r.snapshots[p].labels
    requires env.parseTime(r.snapshots[p].labels[VALUE_USEDAT]) == Some(t)
    ensures LastUsed(ns, r, env, SnapshotNode(ns, p), t)
  {
    assert HasPrefix(VALUE_USEDAT, VALUE_USEDAT);
    assert UsedAt(r.snapshots[p].labels, t, env);
  }

  /**
   A live image labelled with a condition on a snapshot keeps it when the use that the
   snapshot's label records is less, or more, than the duration ago.
   */
  lemma UsedAtKeeps(db: Database, env: Env, ns: string, name: string, ss: Snapshotter, key: string,
                    op: char, x: string, d: int, t: int)
    requires env.handlers == HANDLERS && ns in db && name in db[ns].images && Live(db, env, Node(IMAGE, ns, name))
    requires (ss, key) in db[ns].snapshots && VALUE_USEDAT in db[ns].snapshots[(ss, key)].labels
    requires env.parseTime(db[ns].snapshots[(ss, key)].labels[VALUE_USEDAT]) == Some(t)
    requires op == '<' || op == '>'
    requires '|' !in x && ',' !in x && !HasPrefix(x, "=") && env.parseDuration(x) == Some(d) && !HasPrefix(ss, ".")
    requires var k := COND_SNAPSHOT + "." + ss;
      k in db[ns].images[name].labels && db[ns].images[name].labels[k] == "usedat" + [op] + x + "|" + key
    requires if op == '<' then env.now < t + d else t + d < env.now
    ensures (ss, key) in Collected(db, env)[ns].snapshots
  {
    hide Live;
    hide IsRoot;
    hide Conditional;
    hide LastUsed;
    hide NamesNode;
    hide Attached;
    hide HasPrefix;
    var p: (Snapshotter, string) := (ss, key);
    var m := SnapshotNode(ns, p);
    ConditionSaid(ns, db[ns], env, name, ss, key, op, x, d);
    UseSaid(ns, db[ns], env, p, t);
    var test := if op == '<' then Younger(d) else Older(d);
    assert Passes(test, t, env.now);
    assert LeadsTo(db, env, Node(IMAGE, ns, name), m);
    var e := SnapshotEntry(ss, key, db[ns].snapshots[p]);
    assert Self(ns, e) == m;
    SurvivesExactly(db, env, ns, e);
  }
}
