/**
 What the mark phase means: the roots and edges a database gives rise to, read
 off its records without any order, and what a collection keeps.
 */
module MarkSpec {
  import opened Bytes
  import opened Records
  import opened LabelRefs
  import opened Reachability
  import opened Tricolor

  /**
   What scanRoots learns from a record: a root; a back reference, by which `to`
   is kept as long as `from` is; a conditional reference from `from` to `to`;
   or a value that conditions on `n` are tested against.
   */
  datatype Fact =
    | Root(n: Node)
    | Back(from: Node, to: Node)
    | Cond(from: Node, to: Node, test: Test)
    | Value(n: Node, time: int)

  const CB_FN := Callbacks(true, false, false, false, false)
  const CB_COND := Callbacks(false, false, false, true, false)
  const CB_BREF_COND := Callbacks(false, true, false, true, false)
  const CB_BREF_ROOT_COND := Callbacks(false, true, true, true, false)
  const CB_BREF := Callbacks(false, true, false, false, false)
  const CB_BREF_ROOT_VALUE := Callbacks(false, true, true, false, true)

  /** The "gc.expire" label of a lease or image has passed; a label that does not parse is ignored. */
  predicate Expired(labels: Labels, env: Env) {
    LABEL_EXPIRE in labels &&
    match env.parseTime(labels[LABEL_EXPIRE])
    case Some(t) => env.now > t
    case None => false
  }

  predicate IsFlat(labels: Labels) {
    LABEL_FLAT in labels
  }

  /** What the calls made for the labels of `self` add. */
  function Learned(self: Node, c: Call): Fact {
    match c
    case CallRef(n) => Root(n)
    case CallBackRef(n) => Back(n, self)
    case CallRoot => Root(self)
    case CallCond(n, test) => Cond(self, n, test)
    case CallValue(t) => Value(self, t)
  }

  function LabelFacts(self: Node, labels: Labels, cb: Callbacks, env: Env): set<Fact> {
    set c | c in CallSet(self.ns, labels, cb, env) :: Learned(self, c)
  }

  /** The nodes of the objects a lease lists, flat or plain. */
  function Leased(ns: string, l: Lease): set<Node> {
    var flat := IsFlat(l.labels);
    (set c | c in l.content :: Node(if flat then CONTENT_FLAT else CONTENT, ns, c)) +
    (set s | s in l.snapshots :: Node(if flat then SNAPSHOT_FLAT else SNAPSHOT, ns, SnapKey(s.0, s.1))) +
    (set i | i in l.ingests :: Node(INGEST, ns, i)) +
    (set i | i in l.images :: Node(if flat then IMAGE_FLAT else IMAGE, ns, i))
  }

  function RootFacts(ns: set<Node>): set<Fact> {
    set n | n in ns :: Root(n)
  }

  /** A record with the key it is stored under. */
  datatype Entry =
    | LeaseEntry(id: string, lease: Lease)
    | ImageEntry(name: string, image: Image)
    | IngestEntry(ref: string, ingest: Ingest)
    | BlobEntry(digest: string, blob: Blob)
    | ContainerEntry(id: string, container: Container)
    | SnapshotEntry(ss: Snapshotter, name: string, snapshot: Snapshot)
    | SandboxEntry(id: string, sandbox: Sandbox)

  predicate Has(r: Namespace, e: Entry) {
    match e
    case LeaseEntry(k, l) => k in r.leases && r.leases[k] == l
    case ImageEntry(k, i) => k in r.images && r.images[k] == i
    case IngestEntry(k, i) => k in r.ingests && r.ingests[k] == i
    case BlobEntry(k, b) => k in r.blobs && r.blobs[k] == b
    case ContainerEntry(k, c) => k in r.containers && r.containers[k] == c
    case SnapshotEntry(ss, k, s) => (ss, k) in r.snapshots && r.snapshots[(ss, k)] == s
    case SandboxEntry(k, s) => k in r.sandboxes && r.sandboxes[k] == s
  }

  /** The node of a record. Sandboxes have none: type 0 is unknown to the collector. */
  function Self(ns: string, e: Entry): Node {
    match e
    case LeaseEntry(k, _) => Node(LEASE, ns, k)
    case ImageEntry(k, _) => Node(IMAGE, ns, k)
    case IngestEntry(k, _) => Node(INGEST, ns, k)
    case BlobEntry(k, _) => Node(CONTENT, ns, k)
    case ContainerEntry(k, _) => Node(CONTAINER, ns, k)
    case SnapshotEntry(ss, k, _) => Node(SNAPSHOT, ns, SnapKey(ss, k))
    case SandboxEntry(k, _) => Node(0, ns, k)
  }

  /** What scanRoots learns from one record. */
  function EntryFacts(ns: string, e: Entry, env: Env): set<Fact> {
    var self := Self(ns, e);
    match e
    case LeaseEntry(_, l) =>
      if Expired(l.labels, env) then {} else RootFacts({self} + Leased(ns, l))
    case ImageEntry(_, i) =>
      if Expired(i.labels, env) then LabelFacts(self, i.labels, CB_BREF_COND, env)
      else {Root(self)} + LabelFacts(self, i.labels, CB_COND, env)
    case IngestEntry(_, i) =>
      if i.expireAt.At? && env.now <= i.expireAt.time then {Root(self)} else {}
    case BlobEntry(_, b) => LabelFacts(self, b.labels, CB_BREF_ROOT_COND, env)
    case ContainerEntry(_, c) => {Root(self)} + LabelFacts(self, c.labels, CB_BREF, env)
    case SnapshotEntry(_, _, s) => LabelFacts(self, s.labels, CB_BREF_ROOT_VALUE, env)
    case SandboxEntry(_, s) => LabelFacts(self, s.labels, CB_FN, env)
  }

  /** Some record of the database says `f`. */
  ghost predicate Says(db: Database, env: Env, f: Fact) {
    exists ns, e :: ns in db && Has(db[ns], e) && f in EntryFacts(ns, e, env)
  }

  ghost function Roots(db: Database, env: Env): iset<Node> {
    iset n | Says(db, env, Root(n))
  }

  /** A back reference, or a conditional one whose test some value of its target passes. */
  ghost predicate BackEdge(db: Database, env: Env, n: Node, m: Node) {
    || Says(db, env, Back(n, m))
    || exists test, t :: Says(db, env, Cond(n, m, test)) && Says(db, env, Value(m, t)) && Holds(test, t, env.now)
  }

  /** The targets of reference labels. */
  function LabelTargets(ns: string, labels: Labels, env: Env): set<Node> {
    set c | c in CallSet(ns, labels, CB_FN, env) && c.CallRef? :: c.n
  }

  /** The record that `n` names, flat or plain; a node made by a dead edge names none. */
  function RecordAt(db: Database, n: Node): Option<Entry> {
    if n.ns !in db then None else
    var r := db[n.ns];
    if n.typ == CONTENT then
      if n.key in r.blobs then Some(BlobEntry(n.key, r.blobs[n.key])) else None
    else if n.typ == SNAPSHOT || n.typ == SNAPSHOT_FLAT then
      var ss, name := Before(n.key, '/'), After(n.key, '/');
      if (ss, name) in r.snapshots then Some(SnapshotEntry(ss, name, r.snapshots[(ss, name)])) else None
    else if n.typ == IMAGE || n.typ == IMAGE_FLAT then
      if n.key in r.images then Some(ImageEntry(n.key, r.images[n.key])) else None
    else if n.typ == INGEST then
      if n.key in r.ingests then Some(IngestEntry(n.key, r.ingests[n.key])) else None
    else if n.typ == CONTAINER then
      if n.key in r.containers then Some(ContainerEntry(n.key, r.containers[n.key])) else None
    else None
  }

  /** The references a record makes when it is reached as a node of type `typ`. */
  function EntryTargets(typ: ResourceType, ns: string, e: Entry, env: Env): set<Node> {
    match e
    case BlobEntry(_, b) => LabelTargets(ns, b.labels, env)
    case SnapshotEntry(ss, _, s) =>
      (if s.parent == "" then {} else {Node(typ, ns, SnapKey(ss, s.parent))}) +
      (if typ == SNAPSHOT_FLAT then {} else LabelTargets(ns, s.labels, env))
    case ImageEntry(_, i) =>
      (match i.target
       case Some(d) => {Node(if typ == IMAGE_FLAT then CONTENT_FLAT else CONTENT, ns, d)}
       case None => {}) +
      (if typ == IMAGE_FLAT then {} else LabelTargets(ns, i.labels, env))
    case IngestEntry(_, i) => if i.expected == "" then {} else {Node(CONTENT, ns, i.expected)}
    case ContainerEntry(_, c) =>
      (if c.snapshotter == "" then {} else {Node(SNAPSHOT, ns, SnapKey(c.snapshotter, c.snapshotKey))}) +
      LabelTargets(ns, c.labels, env)
    case LeaseEntry(_, _) => {}
    case SandboxEntry(_, _) => {}
  }

  function RecordTargets(db: Database, env: Env, n: Node): set<Node> {
    match RecordAt(db, n)
    case Some(e) => EntryTargets(n.typ, n.ns, e, env)
    case None => {}
  }

  ghost predicate Edge(db: Database, env: Env, n: Node, m: Node) {
    m in RecordTargets(db, env, n) || BackEdge(db, env, n, m)
  }

  ghost function Edges(db: Database, env: Env): Node -> iset<Node> {
    n => iset m | Edge(db, env, n, m)
  }

  /** Reachable before the flat bit is dropped. */
  ghost predicate Live(db: Database, env: Env, n: Node) {
    Reach(Roots(db, env), Edges(db, env), n)
  }

  ghost predicate Kept(db: Database, env: Env, n: Node) {
    exists m :: Live(db, env, m) && Strip(m) == n
  }

  /** The namespace with only the records whose node is in `keep`; containers and sandboxes always stay. */
  ghost function Filter(ns: string, r: Namespace, keep: iset<Node>): Namespace {
    r.(leases := map k | k in r.leases && Node(LEASE, ns, k) in keep :: r.leases[k],
       images := map k | k in r.images && Node(IMAGE, ns, k) in keep :: r.images[k],
       blobs := map k | k in r.blobs && Node(CONTENT, ns, k) in keep :: r.blobs[k],
       ingests := map k | k in r.ingests && Node(INGEST, ns, k) in keep :: r.ingests[k],
       snapshots := map k | k in r.snapshots && Node(SNAPSHOT, ns, SnapKey(k.0, k.1)) in keep :: r.snapshots[k])
  }

  ghost function KeptNodes(db: Database, env: Env): iset<Node> {
    iset n | Kept(db, env, n)
  }

  /** The database after a successful collection. */
  ghost function Collected(db: Database, env: Env): Database {
    map ns | ns in db :: Filter(ns, db[ns], KeptNodes(db, env))
  }

  /** scanRoots stops with an error at an ingest whose expiry it cannot decode. */
  predicate Scannable(db: Database) {
    forall ns, k :: ns in db && k in db[ns].ingests ==> db[ns].ingests[k].expireAt != Undecodable
  }
}
