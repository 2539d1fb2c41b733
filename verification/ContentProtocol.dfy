/**
 The content store as a concurrent protocol. Writers, commits, deletes, aborts
 and updates hold the store's lock for reading around one transaction; the
 backend cleaner holds it for writing while it scans the records and deletes;
 the collector keeps write transactions out from its mark to its sweep.
 Every interleaving of these steps keeps each blob record, and each digest an
 ingest expects, backed by a blob in the backend.
 */
module ContentProtocol {
  import opened Bytes
  import opened Records
  import opened LabelRefs
  import opened MarkSpec
  import opened ContentTx

  /** A call that holds the read lock; `done` once its transaction has run. */
  datatype Task = Task(request: Request, done: bool)

  /** garbageCollect on the backend: waiting, holding the lock, or deleting what its scan did not see. */
  datatype Cleaner = Idle | Locked | Scanned(content: set<Digest>, refs: set<string>)

  /** The collector holds wlock between mark and sweep. */
  datatype Collector = Resting | Marked(env: Env, kept: iset<Node>)

  datatype State = State(
    db: Database,
    backend: Backend,
    writers: map<nat, Writer>,
    tasks: map<nat, Task>,
    cleaner: Cleaner,
    collector: Collector,
    dirtyCS: bool,
    scheduled: nat)

  datatype Step =
    | Begin(task: nat, request: Request)
    | RunTx(task: nat, handle: nat)
    | End(task: nat)
    | BackendWrite(handle: nat, data: Data)
    | LeaseStep(op: LeaseOp)
    | OtherTx(db: Database)
    | DeleteNamespace(ns: string)
    | CollectMark(env: Env)
    | CollectSweep
    | CleanLock
    | CleanScan
    | CleanDelete(digest: Digest)
    | CleanAbort(bref: string)
    | CleanUnlock

  /** The leases, their labels and what they list of the content store. */
  ghost predicate SameListings(a: map<string, Lease>, b: map<string, Lease>) {
    && a.Keys == b.Keys
    && forall id :: id in a ==>
         a[id].labels == b[id].labels && a[id].content == b[id].content && a[id].ingests == b[id].ingests
  }

  /**
   A transaction on images, containers, snapshots, sandboxes or namespace labels.
   Those on images and snapshots may also edit the leases' listings of them.
   */
  ghost predicate SameContent(db: Database, db': Database) {
    forall ns :: Get(db, ns).blobs == Get(db', ns).blobs
              && Get(db, ns).ingests == Get(db', ns).ingests
              && SameListings(Get(db, ns).leases, Get(db', ns).leases)
  }

  /** A namespace can be deleted while it still has leases, ingests and sandboxes. */
  predicate Deletable(db: Database, ns: string) {
    && ns in db && db[ns].images == map[] && db[ns].blobs == map[]
    && db[ns].containers == map[] && db[ns].snapshots == map[]
  }

  /** The digests that a namespace's records name: its blobs, and what its ingests expect. */
  ghost predicate Names(r: Namespace, d: Digest) {
    d in r.blobs || (d != "" && exists ref :: ref in r.ingests && r.ingests[ref].expected == d)
  }

  ghost predicate Needs(db: Database, d: Digest) {
    exists ns :: ns in db && Names(db[ns], d)
  }

  function NamedContent(r: Namespace): set<Digest> {
    r.blobs.Keys + set ref | ref in r.ingests && r.ingests[ref].expected != "" :: r.ingests[ref].expected
  }

  function NamedRefs(r: Namespace): set<string> {
    set ref | ref in r.ingests && r.ingests[ref].bref != "" :: r.ingests[ref].bref
  }

  /** contentSeen and ingestSeen. */
  function SeenContent(db: Database): set<Digest> {
    set ns, d | ns in db && d in NamedContent(db[ns]) :: d
  }

  function SeenRefs(db: Database): set<string> {
    set ns, r | ns in db && r in NamedRefs(db[ns]) :: r
  }

  ghost predicate ContentRemoved(db: Database, db': Database) {
    exists ns :: Get(db, ns).blobs != Get(db', ns).blobs || Get(db, ns).ingests != Get(db', ns).ingests
  }

  /** The transaction of one request. */
  ghost function TxState(cfg: Config, s: State, task: nat, handle: nat): State
    requires task in s.tasks
  {
    var q := s.tasks[task].request;
    var s1 := s.(tasks := s.tasks[task := Task(q, true)]);
    match q
    case OpenWriter(_, _, _, _, _, _) =>
      (match OpenWriterTx(cfg, s.db, s.backend, q)
       case Err(_) => s1
       case Ok(o) => s1.(db := o.db, backend := o.backend,
                         writers := if o.writer.Some? then s.writers[handle := o.writer.value] else s.writers))
    case Commit(h, _, _, _, _) =>
      if h !in s.writers then s1 else
      var (r, b) := CommitTx(cfg, s.db, s.backend, s.writers[h], q);
      s1.(db := if r.Ok? then r.value else s.db, backend := b)
    case Delete(_, _, _) =>
      (match DeleteTx(s.db, q)
       case Err(_) => s1
       case Ok(db) => s1.(db := db, dirtyCS := true))
    case Abort(_, _, _) =>
      (match AbortTx(s.db, s.backend, q)
       case Err(_) => s1
       case Ok((db, b)) => s1.(db := db, backend := b))
    case Update(_, _, _) =>
      (match UpdateTx(s.db, q)
       case Err(_) => s1
       case Ok(db) => s1.(db := db))
  }

  /** The state after a step, or None where the locks do not allow it. */
  ghost function Next(cfg: Config, s: State, step: Step): Option<State> {
    match step
    case Begin(t, q) =>
      if t in s.tasks || !s.cleaner.Idle? then None
      else Some(s.(tasks := s.tasks[t := Task(q, false)]))
    case RunTx(t, h) =>
      if t !in s.tasks || s.tasks[t].done || h in s.writers || !s.collector.Resting? then None
      else Some(TxState(cfg, s, t, h))
    case End(t) =>
      if t !in s.tasks || !s.tasks[t].done then None else Some(s.(tasks := s.tasks - {t}))
    case BackendWrite(h, data) =>
      // Write or Truncate, which unshares a shared writer; no lock is held.
      if h !in s.writers then None else
      var w := s.writers[h];
      Some(s.(writers := s.writers[h := w.(unshared := true)],
              backend := s.backend.(ingests := s.backend.ingests[w.bref := data])))
    case LeaseStep(op) =>
      if !s.collector.Resting? then None else
      (match LeaseTx(s.db, op)
       case Err(_) => Some(s)
       case Ok(db) => Some(s.(db := db)))
    case OtherTx(db) =>
      if !s.collector.Resting? || !SameContent(s.db, db) then None else Some(s.(db := db))
    case DeleteNamespace(ns) =>
      if !s.collector.Resting? || !Deletable(s.db, ns) then None else Some(s.(db := s.db - {ns}))
    case CollectMark(env) =>
      if !s.collector.Resting? || !Scannable(s.db) then None
      else Some(s.(collector := Marked(env, KeptNodes(s.db, env))))
    case CollectSweep =>
      if !s.collector.Marked? then None else
      var db := map ns | ns in s.db :: Filter(ns, s.db[ns], s.collector.kept);
      var dirty := s.dirtyCS || ContentRemoved(s.db, db);
      Some(s.(db := db, collector := Resting, dirtyCS := false,
        scheduled := if dirty then s.scheduled + 1 else s.scheduled))
    case CleanLock =>
      if s.scheduled == 0 || !s.cleaner.Idle? || s.tasks != map[] then None
      else Some(s.(cleaner := Locked, scheduled := s.scheduled - 1))
    case CleanScan =>
      if !s.cleaner.Locked? then None else Some(s.(cleaner := Scanned(SeenContent(s.db), SeenRefs(s.db))))
    case CleanDelete(d) =>
      if !s.cleaner.Scanned? || d in s.cleaner.content then None
      else Some(s.(backend := s.backend.(blobs := s.backend.blobs - {d})))
    case CleanAbort(bref) =>
      if !s.cleaner.Scanned? || bref in s.cleaner.refs then None
      else Some(s.(backend := s.backend.(ingests := s.backend.ingests - {bref})))
    case CleanUnlock =>
      if s.cleaner.Idle? then None else Some(s.(cleaner := Idle))
  }

  ghost predicate Init(s: State) {
    s.db == map[] && s.backend == Backend(map[], map[]) && s.writers == map[] && s.tasks == map[]
    && s.cleaner.Idle? && s.collector.Resting? && !s.dirtyCS && s.scheduled == 0
  }

  /** Everything the records name is in the backend. */
  ghost predicate Backed(s: State) {
    forall d :: Needs(s.db, d) ==> d in s.backend.blobs
  }

  /** What the collector marked is still what the database says: no transaction comes between mark and sweep. */
  ghost predicate MarkFresh(s: State) {
    s.collector.Marked? ==> s.collector.kept == KeptNodes(s.db, s.collector.env)
  }

  ghost predicate Inv(cfg: Config, s: State) {
    && Backed(s)
    && (s.cleaner.Scanned? ==> forall d :: Needs(s.db, d) ==> d in s.cleaner.content)
    && (!s.cleaner.Idle? ==> s.tasks == map[])
    && MarkFresh(s)
    && (forall d :: d in s.backend.blobs ==> cfg.hash(s.backend.blobs[d]) == d)
  }

  /** The ingest record behind a shared writer still carries its digest. */
  ghost predicate Carried(db: Database, w: Writer) {
    w.digest != "" && w.ns in db && w.ref in db[w.ns].ingests && db[w.ns].ingests[w.ref].expected == w.digest
  }

  /** A step that, if it commits a shared writer, finds the writer's ingest still carrying its digest. */
  ghost predicate Careful(s: State, step: Step) {
    step.RunTx? && step.task in s.tasks && s.tasks[step.task].request.Commit? ==>
      var h := s.tasks[step.task].request.handle;
      h in s.writers && !s.writers[h].unshared ==> Carried(s.db, s.writers[h])
  }

  // ---- every step keeps the invariant ----

  /** What the new record names was named before or is in the backend. */
  ghost predicate NamesBacked(r: Namespace, r': Namespace, b: Backend) {
    forall d :: Names(r', d) ==> Names(r, d) || d in b.blobs
  }

  lemma PutBacked(db: Database, ns: string, r': Namespace, b: Backend, d: Digest)
    requires NamesBacked(Get(db, ns), r', b) && Needs(db[ns := r'], d)
    ensures Needs(db, d) || d in b.blobs
  {
    var ns' :| ns' in db[ns := r'] && Names(db[ns := r'][ns'], d);
    if ns' == ns {
      assert Names(Get(db, ns), d) || d in b.blobs;
    }
  }

  /** Deleting records, and changing anything but blobs and ingests, names nothing new. */
  lemma FewerNames(r: Namespace, r': Namespace, b: Backend)
    requires forall d :: d in r'.blobs ==> d in r.blobs || d in b.blobs
    requires forall ref :: ref in r'.ingests ==>
      || (ref in r.ingests && r.ingests[ref].expected == r'.ingests[ref].expected)
      || r'.ingests[ref].expected == "" || r'.ingests[ref].expected in b.blobs
    ensures NamesBacked(r, r', b)
  {
  }

  lemma OpenWriterBacked(cfg: Config, db: Database, b: Backend, q: Request)
    requires q.OpenWriter? && OpenWriterTx(cfg, db, b, q).Ok?
    ensures var o := OpenWriterTx(cfg, db, b, q).value;
      && q.ns in o.db && o.db == db[q.ns := o.db[q.ns]]
      && NamesBacked(Get(db, q.ns), o.db[q.ns], b) && o.backend.blobs == b.blobs
  {
    hide Names;
    hide IsSharedContent;
    FewerNames(Get(db, q.ns), OpenWriterTx(cfg, db, b, q).value.db[q.ns], b);
  }

  /** A committed writer's digest is in the backend it leaves, given that a shared one's was there. */
  lemma BackendCommitStores(cfg: Config, b: Backend, w: Writer, size: int, expected: Digest)
    requires BackendCommit(cfg, b, w, size, expected).Ok?
    requires forall d :: d in b.blobs ==> cfg.hash(b.blobs[d]) == d
    ensures var (d, _, b') := BackendCommit(cfg, b, w, size, expected).value;
      && (w.unshared ==> d in b'.blobs)
      && (!w.unshared ==> d == w.digest && b' == b)
      && (forall x :: x in b.blobs ==> x in b'.blobs)
      && (forall x :: x in b'.blobs ==> cfg.hash(b'.blobs[x]) == x)
  {
  }

  lemma CommitBacked(db: Database, w: Writer, lease: Option<string>, d: Digest, size: int, labels: Labels, b: Backend)
    requires CommitRecord(db, w, lease, d, size, labels).Ok? && d in b.blobs
    ensures var db' := CommitRecord(db, w, lease, d, size, labels).value;
      w.ns in db' && db' == db[w.ns := db'[w.ns]] && NamesBacked(Get(db, w.ns), db'[w.ns], b)
  {
    hide Names;
    FewerNames(Get(db, w.ns), CommitRecord(db, w, lease, d, size, labels).value[w.ns], b);
  }

  lemma DeleteBacked(db: Database, q: Request, b: Backend)
    requires q.Delete? && DeleteTx(db, q).Ok?
    ensures var db' := DeleteTx(db, q).value;
      q.ns in db' && db' == db[q.ns := db'[q.ns]] && NamesBacked(Get(db, q.ns), db'[q.ns], b)
  {
    hide Names;
    FewerNames(Get(db, q.ns), DeleteTx(db, q).value[q.ns], b);
  }

  lemma AbortBacked(db: Database, b: Backend, q: Request)
    requires q.Abort? && AbortTx(db, b, q).Ok?
    ensures var (db', b') := AbortTx(db, b, q).value;
      q.ns in db' && db' == db[q.ns := db'[q.ns]] && NamesBacked(Get(db, q.ns), db'[q.ns], b) && b'.blobs == b.blobs
  {
    hide Names;
    FewerNames(Get(db, q.ns), AbortTx(db, b, q).value.0[q.ns], b);
  }

  lemma UpdateBacked(db: Database, q: Request, b: Backend)
    requires q.Update? && UpdateTx(db, q).Ok?
    ensures var db' := UpdateTx(db, q).value;
      q.ns in db' && db' == db[q.ns := db'[q.ns]] && NamesBacked(Get(db, q.ns), db'[q.ns], b)
  {
    hide Names;
    FewerNames(Get(db, q.ns), UpdateTx(db, q).value[q.ns], b);
  }

  lemma LeaseBacked(db: Database, op: LeaseOp, b: Backend)
    requires LeaseTx(db, op).Ok?
    ensures var db' := LeaseTx(db, op).value;
      op.ns in db' && db' == db[op.ns := db'[op.ns]] && NamesBacked(Get(db, op.ns), db'[op.ns], b)
  {
    hide Names;
    FewerNames(Get(db, op.ns), LeaseTx(db, op).value[op.ns], b);
  }

  /** The transaction of a request leaves everything its records name in the backend. */
  lemma TxKeepsBacked(cfg: Config, s: State, t: nat, h: nat)
    requires Inv(cfg, s) && t in s.tasks && Careful(s, RunTx(t, h))
    ensures Backed(TxState(cfg, s, t, h))
    ensures forall d :: d in TxState(cfg, s, t, h).backend.blobs ==>
      cfg.hash(TxState(cfg, s, t, h).backend.blobs[d]) == d
  {
    hide Needs;
    hide NamesBacked;
    hide KeptNodes;
    hide OpenWriterTx;
    hide BackendCommit;
    hide CommitRecord;
    hide DeleteTx;
    hide AbortTx;
    hide UpdateTx;
    var s' := TxState(cfg, s, t, h);
    var q := s.tasks[t].request;
    if s'.db != s.db || s'.backend != s.backend {
      var ns := if q.Commit? then s.writers[q.handle].ns else q.ns;
      match q {
        case OpenWriter(_, _, _, _, _, _) => OpenWriterBacked(cfg, s.db, s.backend, q);
        case Commit(c, lease, size, expected, labels) =>
          var w := s.writers[c];
          BackendCommitStores(cfg, s.backend, w, size, expected);
          var (d, n, b) := BackendCommit(cfg, s.backend, w, size, expected).value;
          assert d in b.blobs by {
            if !w.unshared {
              CarriedNeeded(s.db, w);
            }
          }
          if CommitRecord(s.db, w, lease, d, n, labels).Ok? {
            CommitBacked(s.db, w, lease, d, n, labels, b);
          }
        case Delete(_, _, _) => DeleteBacked(s.db, q, s.backend);
        case Abort(_, _, _) => AbortBacked(s.db, s.backend, q);
        case Update(_, _, _) => UpdateBacked(s.db, q, s.backend);
      }
      forall d | Needs(s'.db, d) ensures d in s'.backend.blobs {
        if s'.db != s.db {
          BackendAgrees(Get(s.db, ns), s'.db[ns], s.backend, s'.backend);
          PutBacked(s.db, ns, s'.db[ns], s'.backend, d);
        }
      }
    }
  }

  lemma BackendAgrees(r: Namespace, r': Namespace, b: Backend, b': Backend)
    requires NamesBacked(r, r', b) || NamesBacked(r, r', b')
    requires forall x :: x in b.blobs ==> x in b'.blobs
    ensures NamesBacked(r, r', b')
  {
  }

  lemma CarriedNeeded(db: Database, w: Writer)
    requires Carried(db, w)
    ensures Needs(db, w.digest)
  {
    assert Names(db[w.ns], w.digest);
  }

  /** A sweep deletes records only. */
  lemma SweepNeeds(db: Database, keep: iset<Node>, d: Digest)
    requires Needs(map ns | ns in db :: Filter(ns, db[ns], keep), d)
    ensures Needs(db, d)
  {
    var db' := map ns | ns in db :: Filter(ns, db[ns], keep);
    var ns :| ns in db' && Names(db'[ns], d);
    assert Names(db[ns], d);
  }

  lemma OtherNeeds(db: Database, db': Database, d: Digest)
    requires SameContent(db, db') && Needs(db', d)
    ensures Needs(db, d)
  {
    var ns :| ns in db' && Names(db'[ns], d);
    assert Get(db, ns).blobs == Get(db', ns).blobs && Get(db, ns).ingests == Get(db', ns).ingests;
    assert Names(Get(db, ns), d);
  }

  lemma FewerNamespaces(db: Database, ns: string, d: Digest)
    requires Needs(db - {ns}, d)
    ensures Needs(db, d)
  {
    var n :| n in db - {ns} && Names((db - {ns})[n], d);
    assert n in db && Names(db[n], d);
  }

  /** The cleaner's scan sees exactly what the records name. */
  lemma SeenIsNeeded(db: Database, d: Digest)
    ensures d in SeenContent(db) <==> Needs(db, d)
  {
    assert forall ns :: ns in db ==> (d in NamedContent(db[ns]) <==> Names(db[ns], d));
  }

  lemma StepKeepsInv(cfg: Config, s: State, step: Step)
    requires Inv(cfg, s) && Careful(s, step) && Next(cfg, s, step).Some?
    ensures Inv(cfg, Next(cfg, s, step).value)
  {
    hide Needs;
    hide KeptNodes;
    hide Filter;
    hide TxState;
    hide LeaseTx;
    hide SameContent;
    hide SeenContent;
    hide SeenRefs;
    hide Careful;
    hide Deletable;
    hide ContentRemoved;
    var s' := Next(cfg, s, step).value;
    match step
    case Begin(_, _) =>
    case RunTx(t, h) =>
      TxKeepsBacked(cfg, s, t, h);
      TxFrame(cfg, s, t, h);
    case End(_) =>
    case BackendWrite(_, _) =>
    case LeaseStep(op) =>
      if LeaseTx(s.db, op).Ok? {
        LeaseBacked(s.db, op, Backend(map[], map[]));
        forall d | Needs(s'.db, d) { PutBacked(s.db, op.ns, s'.db[op.ns], Backend(map[], map[]), d); }
      }
    case OtherTx(db) =>
      forall d | Needs(db, d) { OtherNeeds(s.db, db, d); }
    case DeleteNamespace(ns) =>
      forall d | Needs(s.db - {ns}, d) { FewerNamespaces(s.db, ns, d); }
    case CollectMark(_) =>
    case CollectSweep =>
      forall d | Needs(s'.db, d) { SweepNeeds(s.db, s.collector.kept, d); }
    case CleanLock =>
    case CleanScan =>
      forall d { SeenIsNeeded(s.db, d); }
    case CleanDelete(_) =>
    case CleanAbort(_) =>
    case CleanUnlock =>
  }

  lemma TxFrame(cfg: Config, s: State, t: nat, h: nat)
    requires t in s.tasks
    ensures var s' := TxState(cfg, s, t, h);
      s'.cleaner == s.cleaner && s'.collector == s.collector && s'.scheduled == s.scheduled
    ensures TxState(cfg, s, t, h).tasks == s.tasks[t := Task(s.tasks[t].request, true)]
  {
    hide OpenWriterTx;
    hide CommitTx;
    hide DeleteTx;
    hide AbortTx;
    hide UpdateTx;
  }

  // ---- what the cleaner leaves alone ----

  /** Some ingest record names the backend ingest `bref`. */
  ghost predicate RefNamed(db: Database, bref: string) {
    bref != "" && exists ns, ref :: ns in db && ref in db[ns].ingests && db[ns].ingests[ref].bref == bref
  }

  lemma SeenRefsAreNamed(db: Database, bref: string)
    ensures bref in SeenRefs(db) <==> RefNamed(db, bref)
  {
    assert forall ns :: ns in db ==>
      (bref in NamedRefs(db[ns]) <==>
       bref != "" && exists ref :: ref in db[ns].ingests && db[ns].ingests[ref].bref == bref);
  }

  /** The cleaner has the lock to itself, and has seen every backend ingest that a record names. */
  ghost predicate Seen(s: State) {
    && (!s.cleaner.Idle? ==> s.tasks == map[])
    && (s.cleaner.Scanned? ==> forall bref :: RefNamed(s.db, bref) ==> bref in s.cleaner.refs)
  }

  /** Every ingest record of `db'` is in `db` with the same backend ref. */
  ghost predicate FewerIngests(db: Database, db': Database) {
    forall ns, ref :: ns in db' && ref in db'[ns].ingests ==>
      ref in Get(db, ns).ingests && Get(db, ns).ingests[ref].bref == db'[ns].ingests[ref].bref
  }

  lemma FewerRefs(db: Database, db': Database, bref: string)
    requires FewerIngests(db, db') && RefNamed(db', bref)
    ensures RefNamed(db, bref)
  {
    var ns, ref :| ns in db' && ref in db'[ns].ingests && db'[ns].ingests[ref].bref == bref;
    assert ns in db && ref in db[ns].ingests;
  }

  lemma LeaseIngests(db: Database, op: LeaseOp)
    requires LeaseTx(db, op).Ok?
    ensures FewerIngests(db, LeaseTx(db, op).value)
  {
    hide AddTo;
    hide RemoveFrom;
  }

  lemma SweptIngests(db: Database, keep: iset<Node>)
    ensures FewerIngests(db, map ns | ns in db :: Filter(ns, db[ns], keep))
  {
  }

  lemma OtherIngests(db: Database, db': Database)
    requires SameContent(db, db')
    ensures FewerIngests(db, db')
  {
    hide SameListings;
    assert forall ns :: Get(db, ns).ingests == Get(db', ns).ingests;
  }

  lemma OutsideLock(cfg: Config, s: State, step: Step)
    requires Next(cfg, s, step).Some? && !step.RunTx?
    ensures FewerIngests(s.db, Next(cfg, s, step).value.db)
  {
    hide KeptNodes;
    hide Filter;
    hide LeaseTx;
    hide SameContent;
    hide ContentRemoved;
    hide SeenRefs;
    hide SeenContent;
    match step
    case LeaseStep(op) =>
      if LeaseTx(s.db, op).Ok? {
        LeaseIngests(s.db, op);
      }
    case OtherTx(db) => OtherIngests(s.db, db);
    case CollectSweep => SweptIngests(s.db, s.collector.kept);
    case _ =>
  }

  lemma StepKeepsSeen(cfg: Config, s: State, step: Step)
    requires Seen(s) && Next(cfg, s, step).Some?
    ensures Seen(Next(cfg, s, step).value)
  {
    hide RefNamed;
    hide TxState;
    hide LeaseTx;
    hide SameContent;
    hide KeptNodes;
    hide Filter;
    hide ContentRemoved;
    hide SeenRefs;
    hide SeenContent;
    var s' := Next(cfg, s, step).value;
    if step.RunTx? {
      TxFrame(cfg, s, step.task, step.handle);
    } else {
      hide FewerIngests;
      OutsideLock(cfg, s, step);
      forall bref | RefNamed(s'.db, bref) ensures RefNamed(s.db, bref) {
        FewerRefs(s.db, s'.db, bref);
      }
      forall bref ensures bref in SeenRefs(s.db) <==> RefNamed(s.db, bref) {
        SeenRefsAreNamed(s.db, bref);
      }
    }
  }

  lemma {:induction false} RunsKeepSeen(cfg: Config, states: seq<State>, steps: seq<Step>, k: nat)
    requires IsRun(cfg, states, steps) && Seen(states[0]) && k < |states|
    ensures Seen(states[k])
    decreases k
  {
    hide Next;
    hide Seen;
    if k > 0 {
      RunsKeepSeen(cfg, states, steps, k - 1);
      assert Next(cfg, states[k - 1], steps[k - 1]) == Some(states[k]);
      StepKeepsSeen(cfg, states[k - 1], steps[k - 1]);
    }
  }

  /** In no run does the cleaner abort a backend ingest that a record names. */
  lemma CleanerSparesNamed(cfg: Config, states: seq<State>, steps: seq<Step>, k: nat)
    requires IsRun(cfg, states, steps) && Init(states[0]) && k < |steps| && steps[k].CleanAbort?
    ensures !RefNamed(states[k].db, steps[k].bref)
  {
    hide RefNamed;
    RunsKeepSeen(cfg, states, steps, k);
    var j := k + 1;
    assert Next(cfg, states[k], steps[k]) == Some(states[j]);
  }

  /** A run: each state follows from the one before it by the step between them. */
  ghost predicate IsRun(cfg: Config, states: seq<State>, steps: seq<Step>) {
    && |states| == |steps| + 1
    && (forall i, j :: 0 <= i < j < |states| && j == i + 1 ==> Next(cfg, states[i], steps[i]) == Some(states[j]))
  }

  /**
   In every state of every run in which shared commits are careful, each blob
   record of each namespace and each digest an ingest expects is in the backend.
   */
  lemma {:induction false} RunsStayBacked(cfg: Config, states: seq<State>, steps: seq<Step>, k: nat)
    requires IsRun(cfg, states, steps) && Init(states[0]) && k < |states|
    requires forall i :: 0 <= i < |steps| ==> Careful(states[i], steps[i])
    ensures Inv(cfg, states[k])
    decreases k
  {
    hide Careful;
    hide Next;
    if k == 0 {
      assert forall d :: !Needs(states[0].db, d);
    } else {
      RunsStayBacked(cfg, states, steps, k - 1);
      assert Next(cfg, states[k - 1], steps[k - 1]) == Some(states[k]);
      StepKeepsInv(cfg, states[k - 1], steps[k - 1]);
    }
  }

  // ---- shared commits without that care ----

  /** The task is about to commit a shared writer, and the transaction will succeed. */
  ghost predicate SharedCommit(cfg: Config, s: State, t: nat) {
    && t in s.tasks && s.tasks[t].request.Commit?
    && s.tasks[t].request.handle in s.writers && !s.writers[s.tasks[t].request.handle].unshared
    && CommitTx(cfg, s.db, s.backend, s.writers[s.tasks[t].request.handle], s.tasks[t].request).0.Ok?
  }

  /** A shared commit keeps the records backed exactly when the backend still has the blob. */
  lemma SharedCommitExact(cfg: Config, s: State, t: nat, h: nat)
    requires Inv(cfg, s) && SharedCommit(cfg, s, t)
    ensures Backed(TxState(cfg, s, t, h)) <==> s.writers[s.tasks[t].request.handle].digest in s.backend.blobs
  {
    hide Needs;
    hide NamesBacked;
    hide KeptNodes;
    var q := s.tasks[t].request;
    var w := s.writers[q.handle];
    var s' := TxState(cfg, s, t, h);
    SharedCommitRecords(cfg, s, t, h);
    if w.digest in s.backend.blobs {
      CommitBacked(s.db, w, q.lease, w.digest, w.size, q.labels, s.backend);
      forall d | Needs(s'.db, d) { PutBacked(s.db, w.ns, s'.db[w.ns], s.backend, d); }
    }
  }

  /** If the step is a successful shared commit, the backend still has the blob. */
  ghost predicate CommitsPresent(cfg: Config, s: State, step: Step) {
    step.RunTx? && SharedCommit(cfg, s, step.task) ==>
      s.writers[s.tasks[step.task].request.handle].digest in s.backend.blobs
  }

  /** A shared commit that fails changes neither records nor backend. */
  lemma FailedSharedCommit(cfg: Config, s: State, t: nat, h: nat)
    requires t in s.tasks && s.tasks[t].request.Commit? && !SharedCommit(cfg, s, t)
    requires var c := s.tasks[t].request.handle; c in s.writers && !s.writers[c].unshared
    ensures TxState(cfg, s, t, h).db == s.db && TxState(cfg, s, t, h).backend == s.backend
  {
    hide CommitRecord;
  }

  /** Each step keeps the invariant, or else is a shared commit of a lost blob and leaves a record without one. */
  lemma StepExact(cfg: Config, s: State, step: Step)
    requires Inv(cfg, s) && Next(cfg, s, step).Some?
    ensures CommitsPresent(cfg, s, step) ==> Inv(cfg, Next(cfg, s, step).value)
    ensures !CommitsPresent(cfg, s, step) ==> !Backed(Next(cfg, s, step).value)
  {
    hide TxState;
    hide Backed;
    hide CommitTx;
    hide MarkFresh;
    if step.RunTx? && SharedCommit(cfg, s, step.task) {
      SharedCommitExact(cfg, s, step.task, step.handle);
      SharedCommitRecords(cfg, s, step.task, step.handle);
      TxFrame(cfg, s, step.task, step.handle);
      TxKeepsMark(cfg, s, step.task, step.handle);
      IdleWhileTasks(cfg, s, step.task);
    } else if Careful(s, step) {
      StepKeepsInv(cfg, s, step);
    } else {
      FailedSharedCommit(cfg, s, step.task, step.handle);
      TxFrame(cfg, s, step.task, step.handle);
      TxKeepsMark(cfg, s, step.task, step.handle);
      IdleWhileTasks(cfg, s, step.task);
      SameBacked(s, TxState(cfg, s, step.task, step.handle));
    }
  }

  lemma TxKeepsMark(cfg: Config, s: State, t: nat, h: nat)
    requires t in s.tasks && s.collector.Resting?
    ensures MarkFresh(TxState(cfg, s, t, h))
  {
    hide KeptNodes;
    TxFrame(cfg, s, t, h);
  }

  lemma IdleWhileTasks(cfg: Config, s: State, t: nat)
    requires Inv(cfg, s) && t in s.tasks
    ensures s.cleaner.Idle?
  {
    hide Backed;
  }

  lemma SameBacked(s: State, s': State)
    requires Backed(s) && s'.db == s.db && s'.backend == s.backend
    ensures Backed(s')
  {
  }

  /**
   Exactly when runs stay backed: every state up to the n-th is backed iff each
   successful shared commit before it finds its digest in the backend.
   */
  lemma {:induction false} RunsBackedExactly(cfg: Config, states: seq<State>, steps: seq<Step>, n: nat)
    requires IsRun(cfg, states, steps) && Init(states[0]) && n < |states|
    ensures (forall k :: 0 <= k <= n ==> Backed(states[k])) <==>
      forall k :: 0 <= k < n ==> CommitsPresent(cfg, states[k], steps[k])
    ensures (forall k :: 0 <= k <= n ==> Backed(states[k])) ==> Inv(cfg, states[n])
    decreases n
  {
    hide Next;
    hide CommitsPresent;
    hide Backed;
    hide MarkFresh;
    if n == 0 {
      EmptyInv(cfg, states[0]);
    } else {
      RunsBackedExactly(cfg, states, steps, n - 1);
      assert Next(cfg, states[n - 1], steps[n - 1]) == Some(states[n]);
      if forall k :: 0 <= k <= n - 1 ==> Backed(states[k]) {
        StepExact(cfg, states[n - 1], steps[n - 1]);
        InvBacked(cfg, states[n]);
      }
    }
  }

  lemma EmptyInv(cfg: Config, s: State)
    requires Init(s)
    ensures Inv(cfg, s) && Backed(s)
  {
    assert forall d :: !Needs(s.db, d);
  }

  lemma InvBacked(cfg: Config, s: State)
    ensures Inv(cfg, s) ==> Backed(s)
  {
  }

  lemma SharedCommitRecords(cfg: Config, s: State, t: nat, h: nat)
    requires SharedCommit(cfg, s, t)
    ensures var w := s.writers[s.tasks[t].request.handle];
      Needs(TxState(cfg, s, t, h).db, w.digest) && TxState(cfg, s, t, h).backend == s.backend
  {
    var w := s.writers[s.tasks[t].request.handle];
    var db' := TxState(cfg, s, t, h).db;
    assert w.ns in db' && Names(db'[w.ns], w.digest);
  }

  /** Some run leads from s to s'. */
  ghost predicate Reaches(cfg: Config, s: State, s': State) {
    exists states, steps :: IsRun(cfg, states, steps) && states[0] == s && states[|steps|] == s'
  }

  lemma ReachesSelf(cfg: Config, s: State)
    ensures Reaches(cfg, s, s)
  {
    assert IsRun(cfg, [s], []);
  }

  lemma ReachesNext(cfg: Config, s: State, m: State, step: Step)
    requires Reaches(cfg, s, m) && Next(cfg, m, step).Some?
    ensures Reaches(cfg, s, Next(cfg, m, step).value)
  {
    hide Next;
    var states, steps :| IsRun(cfg, states, steps) && states[0] == s && states[|steps|] == m;
    var states', steps' := states + [Next(cfg, m, step).value], steps + [step];
    assert IsRun(cfg, states', steps');
    assert states'[|steps'|] == Next(cfg, m, step).value;
  }

  /** No call is under way and no lock is held. */
  ghost predicate Quiet(s: State) {
    s.tasks == map[] && s.cleaner.Idle? && s.collector.Resting?
  }

  /** The state after a whole call. */
  ghost function Did(cfg: Config, s: State, q: Request, h: nat): State {
    TxState(cfg, s.(tasks := map[0 := Task(q, false)]), 0, h).(tasks := map[])
  }

  lemma Call(cfg: Config, s: State, m: State, q: Request, h: nat)
    requires Reaches(cfg, s, m) && Quiet(m) && h !in m.writers
    ensures Reaches(cfg, s, Did(cfg, m, q, h)) && Quiet(Did(cfg, m, q, h))
  {
    hide Reaches;
    hide TxState;
    var a := m.(tasks := map[0 := Task(q, false)]);
    ReachesNext(cfg, s, m, Begin(0, q));
    assert Next(cfg, m, Begin(0, q)) == Some(a);
    ReachesNext(cfg, s, a, RunTx(0, h));
    var b := TxState(cfg, a, 0, h);
    TxFrame(cfg, a, 0, h);
    ReachesNext(cfg, s, b, End(0));
    assert b.tasks - {0} == map[];
  }

  /**
   Why the care is needed: whenever a shared writer's digest is named by no
   record any more and a cleanup is due, a blob that the backend has lost can be committed.
   */
  lemma LostDigest(cfg: Config, start: State, s: State, c: nat, h: nat) returns (lost: State)
    requires Reaches(cfg, start, s) && Quiet(s) && s.scheduled > 0
    requires c in s.writers && !s.writers[c].unshared && !Needs(s.db, s.writers[c].digest) && h !in s.writers
    ensures Reaches(cfg, start, lost) && !Backed(lost)
  {
    hide Needs;
    hide SeenContent;
    hide TxState;
    hide Reaches;
    var w := s.writers[c];
    var q := Commit(c, None, 0, "", map[]);
    SeenIsNeeded(s.db, w.digest);
    ReachesNext(cfg, start, s, CleanLock);
    var s1 := Next(cfg, s, CleanLock).value;
    ReachesNext(cfg, start, s1, CleanScan);
    var s2 := Next(cfg, s1, CleanScan).value;
    ReachesNext(cfg, start, s2, CleanDelete(w.digest));
    var s3 := Next(cfg, s2, CleanDelete(w.digest)).value;
    ReachesNext(cfg, start, s3, CleanUnlock);
    var s4 := Next(cfg, s3, CleanUnlock).value;
    Call(cfg, start, s4, q, h);
    lost := Did(cfg, s4, q, h);
    SharedCommitRecords(cfg, s4.(tasks := map[0 := Task(q, false)]), 0, h);
  }

  /** One namespace holds the blob `d` and nothing else names anything; no one else has touched the store. */
  ghost predicate OneBlob(s: State, d: Digest) {
    Quiet(s) && s.writers.Keys == {0} && s.backend.blobs.Keys == {d} && !s.dirtyCS && s.scheduled == 0
    && s.db.Keys == {"a"} && s.db["a"].blobs.Keys == {d} && s.db["a"].ingests == map[]
  }

  /** An empty blob, pulled into namespace "a". */
  lemma PullEmpty(cfg: Config, start: State) returns (s: State)
    requires Init(start)
    ensures Reaches(cfg, start, s) && OneBlob(s, cfg.hash([]))
  {
    hide Reaches;
    ReachesSelf(cfg, start);
    var q1, q2 := OpenWriter("a", None, "r", "", 0, 0), Commit(0, None, 0, "", map[]);
    Call(cfg, start, start, q1, 0);
    var s1 := Did(cfg, start, q1, 0);
    Call(cfg, start, s1, q2, 1);
    s := Did(cfg, s1, q2, 1);
  }

  /** Writer 1 is a shared writer on `d`. */
  ghost predicate SharesBlob(s: State, d: Digest) {
    Quiet(s) && s.writers.Keys == {0, 1} && s.writers[1].digest == d && !s.writers[1].unshared
  }

  /** It was opened from namespace "b". */
  lemma OpenShared(cfg: Config, start: State, s: State, d: Digest) returns (s': State)
    requires Reaches(cfg, start, s) && OneBlob(s, d) && cfg.shared && d != ""
    ensures Reaches(cfg, start, s') && SharesBlob(s', d) && s'.db.Keys == {"a", "b"}
    ensures s'.db["a"].blobs.Keys == {d} && s'.db["a"].ingests == map[]
    ensures s'.db["b"].blobs == map[] && s'.db["b"].ingests.Keys == {"r"} && s'.db["b"].ingests["r"].bref != ""
  {
    hide Reaches;
    var q := OpenWriter("b", None, "r", d, 0, 0);
    Call(cfg, start, s, q, 1);
    s' := Did(cfg, s, q, 1);
  }

  /** Its ingest is aborted, and the blob deleted from namespace "a". */
  lemma DropRecords(cfg: Config, start: State, s: State, d: Digest) returns (s': State)
    requires Reaches(cfg, start, s) && SharesBlob(s, d) && s.db.Keys == {"a", "b"}
    requires s.db["a"].blobs.Keys == {d} && s.db["a"].ingests == map[]
    requires s.db["b"].blobs == map[] && s.db["b"].ingests.Keys == {"r"} && s.db["b"].ingests["r"].bref != ""
    ensures Reaches(cfg, start, s') && SharesBlob(s', d) && s'.dirtyCS
    ensures forall ns :: ns in s'.db ==> s'.db[ns].blobs == map[] && s'.db[ns].ingests == map[]
  {
    hide Reaches;
    var q1, q2 := Abort("b", None, "r"), Delete("a", None, d);
    Call(cfg, start, s, q1, 2);
    var s1 := Did(cfg, s, q1, 2);
    Call(cfg, start, s1, q2, 2);
    s' := Did(cfg, s1, q2, 2);
  }

  /** A collection schedules the backend cleanup. */
  lemma Schedule(cfg: Config, start: State, s: State, env: Env, d: Digest) returns (s': State)
    requires Reaches(cfg, start, s) && SharesBlob(s, d) && s.dirtyCS
    requires forall ns :: ns in s.db ==> s.db[ns].blobs == map[] && s.db[ns].ingests == map[]
    ensures Reaches(cfg, start, s') && SharesBlob(s', d) && s'.scheduled > 0 && !Needs(s'.db, d)
  {
    hide Reaches;
    hide KeptNodes;
    ReachesNext(cfg, start, s, CollectMark(env));
    var m := Next(cfg, s, CollectMark(env)).value;
    ReachesNext(cfg, start, m, CollectSweep);
    s' := Next(cfg, m, CollectSweep).value;
  }

  /** With the shared policy, such a commit is reachable from an empty store. */
  lemma LostDigestIsReachable(cfg: Config, start: State, env: Env) returns (lost: State)
    requires Init(start) && cfg.shared && cfg.hash([]) != ""
    ensures Reaches(cfg, start, lost) && !Backed(lost)
  {
    hide Reaches;
    hide Needs;
    hide Backed;
    var s := PullEmpty(cfg, start);
    s := OpenShared(cfg, start, s, cfg.hash([]));
    s := DropRecords(cfg, start, s, cfg.hash([]));
    s := Schedule(cfg, start, s, env, cfg.hash([]));
    lost := LostDigest(cfg, start, s, 1, 2);
  }
}
