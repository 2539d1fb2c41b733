/**
 Leases across the content protocol: from a Writer call under a lease to the end
 of that lease, no interleaving of other calls and collections takes away the
 ingest, nor, after Commit under the same lease, the blob.
 */
module LeaseProtection {
  import opened Bytes
  import opened Records
  import opened LabelRefs
  import opened MarkSpec
  import opened CollectorLaws
  import opened ContentTx
  import opened ContentProtocol

  ghost predicate LeasedIngest(db: Database, ns: string, lease: string, ref: string) {
    ns in db && lease in db[ns].leases && ref in db[ns].leases[lease].ingests && ref in db[ns].ingests
  }

  ghost predicate LeasedBlob(db: Database, ns: string, lease: string, d: Digest) {
    ns in db && lease in db[ns].leases && d in db[ns].leases[lease].content && d in db[ns].blobs
  }

  /** What the lease is held for. */
  datatype Holding = HeldIngest(ref: string) | HeldBlob(digest: Digest)

  ghost predicate Protected(db: Database, ns: string, lease: string, x: Holding) {
    match x
    case HeldIngest(ref) => LeasedIngest(db, ns, lease, ref)
    case HeldBlob(d) => LeasedBlob(db, ns, lease, d)
  }

  /** The request itself takes the object away: a Delete or Abort of it, or a Commit on its ref that goes through. */
  ghost predicate Takes(cfg: Config, s: State, q: Request, ns: string, x: Holding) {
    match q
    case Delete(n, _, d) => n == ns && x == HeldBlob(d)
    case Abort(n, _, ref) => n == ns && x == HeldIngest(ref)
    case Commit(h, _, _, _, _) =>
      && h in s.writers && s.writers[h].ns == ns && x == HeldIngest(s.writers[h].ref)
      && CommitTx(cfg, s.db, s.backend, s.writers[h], q).0.Ok?
    case _ => false
  }

  ghost predicate ReleasesLease(op: LeaseOp, ns: string, lease: string, x: Holding) {
    op.ns == ns && op.id == lease &&
    (op.DeleteLease? || (op.DeleteResource? &&
      match x
      case HeldIngest(ref) => op.r == IngestResource(ref)
      case HeldBlob(d) => op.r == ContentResource(d)))
  }

  /**
   A step that neither takes the object nor ends the lease. Deleting the namespace
   ends it, but only while there is no blob yet. A sweep must not find the lease expired.
   */
  ghost predicate Harmless(cfg: Config, s: State, step: Step, ns: string, lease: string, x: Holding) {
    match step
    case RunTx(t, _) => t in s.tasks ==> !Takes(cfg, s, s.tasks[t].request, ns, x)
    case LeaseStep(op) => !ReleasesLease(op, ns, lease, x)
    case DeleteNamespace(n) => n != ns || x.HeldBlob?
    case CollectSweep => s.collector.Marked? && ns in s.db && lease in s.db[ns].leases ==>
        !Expired(s.db[ns].leases[lease].labels, s.collector.env)
    case _ => true
  }

  // ---- collections ----

  /** A live lease keeps itself and what it lists. */
  lemma LiveLeaseKeeps(db: Database, env: Env, ns: string, lease: string, n: Node)
    requires ns in db && lease in db[ns].leases && !Expired(db[ns].leases[lease].labels, env)
    requires n == Node(LEASE, ns, lease) || n in Leased(ns, db[ns].leases[lease])
    ensures Kept(db, env, Strip(n))
  {
    hide Live;
    hide Leased;
    hide Expired;
    var e := LeaseEntry(lease, db[ns].leases[lease]);
    assert Has(db[ns], e);
    assert Root(n) in EntryFacts(ns, e, env);
    RootLive(db, env, n);
    LiveKept(db, env, n);
  }

  /** The node a lease lists for what it holds. */
  ghost function ListedNode(ns: string, l: Lease, x: Holding): Node {
    match x
    case HeldIngest(ref) => Node(INGEST, ns, ref)
    case HeldBlob(d) => Node(if IsFlat(l.labels) then CONTENT_FLAT else CONTENT, ns, d)
  }

  lemma ListedNodeLeased(ns: string, l: Lease, x: Holding)
    requires match x case HeldIngest(ref) => ref in l.ingests case HeldBlob(d) => d in l.content
    ensures ListedNode(ns, l, x) in Leased(ns, l)
  {
  }

  lemma CollectionProtects(db: Database, env: Env, ns: string, lease: string, x: Holding)
    requires Protected(db, ns, lease, x) && !Expired(db[ns].leases[lease].labels, env)
    ensures Protected(Collected(db, env), ns, lease, x)
  {
    hide Kept;
    hide Expired;
    hide Leased;
    hide Filter;
    var l := db[ns].leases[lease];
    LiveLeaseKeeps(db, env, ns, lease, Node(LEASE, ns, lease));
    ListedNodeLeased(ns, l, x);
    LiveLeaseKeeps(db, env, ns, lease, ListedNode(ns, l, x));
    CollectedHas(db, env, ns, LeaseEntry(lease, l));
    CollectedHas(db, env, ns,
                 match x
                 case HeldIngest(ref) => IngestEntry(ref, db[ns].ingests[ref])
                 case HeldBlob(d) => BlobEntry(d, db[ns].blobs[d]));
  }

  // ---- transactions ----

  /** Records and lease listings are only added. */
  ghost predicate Grows(r: Namespace, r': Namespace) {
    && r.blobs.Keys <= r'.blobs.Keys && r.ingests.Keys <= r'.ingests.Keys
    && forall l :: l in r.leases ==>
         l in r'.leases && r.leases[l].content <= r'.leases[l].content && r.leases[l].ingests <= r'.leases[l].ingests
  }

  lemma OpenWriterGrows(cfg: Config, db: Database, b: Backend, q: Request)
    requires q.OpenWriter? && OpenWriterTx(cfg, db, b, q).Ok?
    ensures var db' := OpenWriterTx(cfg, db, b, q).value.db;
      q.ns in db' && db' == db[q.ns := db'[q.ns]] && Grows(Get(db, q.ns), db'[q.ns])
  {
    hide CanShare;
    hide BackendRef;
  }

  lemma OpenWriterProtects(cfg: Config, db: Database, b: Backend, q: Request, ns: string, lease: string, x: Holding)
    requires q.OpenWriter? && OpenWriterTx(cfg, db, b, q).Ok? && Protected(db, ns, lease, x)
    ensures Protected(OpenWriterTx(cfg, db, b, q).value.db, ns, lease, x)
  {
    hide OpenWriterTx;
    OpenWriterGrows(cfg, db, b, q);
  }

  lemma CommitProtects(db: Database, w: Writer, l: Option<string>, d: Digest, size: int, labels: Labels, ns: string,
                       lease: string, x: Holding)
    requires CommitRecord(db, w, l, d, size, labels).Ok? && Protected(db, ns, lease, x)
    requires !(w.ns == ns && x == HeldIngest(w.ref))
    ensures Protected(CommitRecord(db, w, l, d, size, labels).value, ns, lease, x)
  {
  }

  lemma DeleteProtects(db: Database, q: Request, ns: string, lease: string, x: Holding)
    requires q.Delete? && DeleteTx(db, q).Ok? && Protected(db, ns, lease, x) && !(q.ns == ns && x == HeldBlob(q.digest))
    ensures Protected(DeleteTx(db, q).value, ns, lease, x)
  {
  }

  lemma AbortProtects(db: Database, b: Backend, q: Request, ns: string, lease: string, x: Holding)
    requires q.Abort? && AbortTx(db, b, q).Ok? && Protected(db, ns, lease, x) && !(q.ns == ns && x == HeldIngest(q.ref))
    ensures Protected(AbortTx(db, b, q).value.0, ns, lease, x)
  {
  }

  lemma TxProtects(cfg: Config, s: State, t: nat, h: nat, ns: string, lease: string, x: Holding)
    requires t in s.tasks && Protected(s.db, ns, lease, x) && !Takes(cfg, s, s.tasks[t].request, ns, x)
    ensures Protected(TxState(cfg, s, t, h).db, ns, lease, x)
  {
    hide OpenWriterTx;
    hide BackendCommit;
    hide CommitRecord;
    hide DeleteTx;
    hide AbortTx;
    hide LeasedIngest;
    hide LeasedBlob;
    var q := s.tasks[t].request;
    if TxState(cfg, s, t, h).db != s.db {
      match q
      case OpenWriter(_, _, _, _, _, _) => OpenWriterProtects(cfg, s.db, s.backend, q, ns, lease, x);
      case Commit(c, l, size, expected, labels) =>
        var (d, n, _) := BackendCommit(cfg, s.backend, s.writers[c], size, expected).value;
        CommitProtects(s.db, s.writers[c], l, d, n, labels, ns, lease, x);
      case Delete(_, _, _) => DeleteProtects(s.db, q, ns, lease, x);
      case Abort(_, _, _) => AbortProtects(s.db, s.backend, q, ns, lease, x);
      case Update(_, _, _) => UpdateProtects(s.db, q, ns, lease, x);
    }
  }

  lemma UpdateProtects(db: Database, q: Request, ns: string, lease: string, x: Holding)
    requires q.Update? && UpdateTx(db, q).Ok? && Protected(db, ns, lease, x)
    ensures Protected(UpdateTx(db, q).value, ns, lease, x)
  {
  }

  lemma LeaseStepProtects(db: Database, op: LeaseOp, ns: string, lease: string, x: Holding)
    requires LeaseTx(db, op).Ok? && Protected(db, ns, lease, x) && !ReleasesLease(op, ns, lease, x)
    ensures Protected(LeaseTx(db, op).value, ns, lease, x)
  {
  }

  lemma OtherTxProtects(db: Database, db': Database, ns: string, lease: string, x: Holding)
    requires SameContent(db, db') && Protected(db, ns, lease, x)
    ensures Protected(db', ns, lease, x)
  {
    assert Get(db, ns).blobs == Get(db', ns).blobs && SameListings(Get(db, ns).leases, Get(db', ns).leases);
  }

  // ---- runs ----

  lemma StepProtects(cfg: Config, s: State, step: Step, ns: string, lease: string, x: Holding)
    requires MarkFresh(s) && Next(cfg, s, step).Some? && Harmless(cfg, s, step, ns, lease, x)
    requires Protected(s.db, ns, lease, x)
    ensures Protected(Next(cfg, s, step).value.db, ns, lease, x)
  {
    hide TxState;
    hide LeaseTx;
    hide KeptNodes;
    hide Filter;
    hide Takes;
    hide Expired;
    hide Needs;
    hide SeenContent;
    hide ContentRemoved;
    match step
    case RunTx(t, h) => TxProtects(cfg, s, t, h, ns, lease, x);
    case LeaseStep(op) =>
      if LeaseTx(s.db, op).Ok? {
        LeaseStepProtects(s.db, op, ns, lease, x);
      }
    case OtherTx(db) =>
      OtherTxProtects(s.db, db, ns, lease, x);
    case CollectSweep =>
      CollectionProtects(s.db, s.collector.env, ns, lease, x);
      assert Next(cfg, s, step).value.db == Collected(s.db, s.collector.env);
    case _ =>
  }

  lemma StepKeepsMark(cfg: Config, s: State, step: Step)
    requires MarkFresh(s) && Next(cfg, s, step).Some?
    ensures MarkFresh(Next(cfg, s, step).value)
  {
    hide KeptNodes;
    hide Filter;
    hide TxState;
    hide LeaseTx;
    hide SameContent;
    hide ContentRemoved;
    if step.RunTx? {
      TxFrame(cfg, s, step.task, step.handle);
    }
  }

  lemma {:induction false} RunsKeepMark(cfg: Config, states: seq<State>, steps: seq<Step>, k: nat)
    requires IsRun(cfg, states, steps) && MarkFresh(states[0]) && k < |states|
    ensures MarkFresh(states[k])
    decreases k
  {
    hide Next;
    hide MarkFresh;
    if k > 0 {
      RunsKeepMark(cfg, states, steps, k - 1);
      assert Next(cfg, states[k - 1], steps[k - 1]) == Some(states[k]);
      StepKeepsMark(cfg, states[k - 1], steps[k - 1]);
    }
  }

  /** A stretch of a run in which every step is harmless keeps what the lease holds. */
  lemma {:induction false} LeaseProtects(cfg: Config, states: seq<State>, steps: seq<Step>, i: nat, j: nat,
                                         ns: string, lease: string, x: Holding)
    requires IsRun(cfg, states, steps) && i <= j < |states|
    requires MarkFresh(states[0]) && forall k :: i <= k < j ==> Harmless(cfg, states[k], steps[k], ns, lease, x)
    requires Protected(states[i].db, ns, lease, x)
    ensures Protected(states[j].db, ns, lease, x)
    decreases j - i
  {
    hide Next;
    hide MarkFresh;
    hide Harmless;
    if i < j {
      LeaseProtects(cfg, states, steps, i, j - 1, ns, lease, x);
      assert Next(cfg, states[j - 1], steps[j - 1]) == Some(states[j]);
      RunsKeepMark(cfg, states, steps, j - 1);
      StepProtects(cfg, states[j - 1], steps[j - 1], ns, lease, x);
    }
  }

  /** Writer under a lease that succeeds leaves its ingest, or the blob that exists already, under the lease. */
  lemma WriterLeases(cfg: Config, db: Database, b: Backend, q: Request)
    requires q.OpenWriter? && q.lease.Some? && OpenWriterTx(cfg, db, b, q).Ok?
    ensures var o := OpenWriterTx(cfg, db, b, q).value;
      Protected(o.db, q.ns, q.lease.value, if o.writer.Some? then HeldIngest(q.ref) else HeldBlob(q.digest))
  {
    hide CanShare;
  }

  /** Commit under a lease that succeeds leaves the blob under the lease: the handoff from ingest to content. */
  lemma CommitLeases(db: Database, w: Writer, lease: string, d: Digest, size: int, labels: Labels)
    requires CommitRecord(db, w, Some(lease), d, size, labels).Ok?
    ensures LeasedBlob(CommitRecord(db, w, Some(lease), d, size, labels).value, w.ns, lease, d)
  {
  }

  /** The step runs a Writer call under the lease that opens a writer on `ref`. */
  ghost predicate OpensUnder(cfg: Config, s: State, step: Step, ns: string, lease: string, ref: string) {
    && step.RunTx? && step.task in s.tasks && s.tasks[step.task].request.OpenWriter?
    && var q := s.tasks[step.task].request;
    && q.ns == ns && q.lease == Some(lease) && q.ref == ref
    && OpenWriterTx(cfg, s.db, s.backend, q).Ok? && OpenWriterTx(cfg, s.db, s.backend, q).value.writer.Some?
  }

  /** The step commits writer `h` under the lease as digest `d`. */
  ghost predicate CommitsUnder(cfg: Config, s: State, step: Step, h: nat, lease: string, d: Digest) {
    && step.RunTx? && step.task in s.tasks && s.tasks[step.task].request.Commit?
    && var q := s.tasks[step.task].request;
    && q.handle == h && q.lease == Some(lease) && h in s.writers
    && CommitTx(cfg, s.db, s.backend, s.writers[h], q).0.Ok?
    && BackendCommit(cfg, s.backend, s.writers[h], q.size, q.expected).value.0 == d
  }

  lemma OpenedIsLeased(cfg: Config, s: State, step: Step, ns: string, lease: string, ref: string)
    requires Next(cfg, s, step).Some? && OpensUnder(cfg, s, step, ns, lease, ref)
    ensures var s' := Next(cfg, s, step).value;
      && LeasedIngest(s'.db, ns, lease, ref)
      && step.handle in s'.writers && s'.writers[step.handle].ns == ns && s'.writers[step.handle].ref == ref
  {
    hide CanShare;
    WriterLeases(cfg, s.db, s.backend, s.tasks[step.task].request);
  }

  lemma CommittedIsLeased(cfg: Config, s: State, step: Step, h: nat, lease: string, d: Digest)
    requires Next(cfg, s, step).Some? && CommitsUnder(cfg, s, step, h, lease, d)
    ensures LeasedBlob(Next(cfg, s, step).value.db, s.writers[h].ns, lease, d)
  {
    hide CommitRecord;
    hide BackendCommit;
    var q := s.tasks[step.task].request;
    var (d', size, _) := BackendCommit(cfg, s.backend, s.writers[h], q.size, q.expected).value;
    CommitLeases(s.db, s.writers[h], lease, d', size, q.labels);
  }

  /** An open writer keeps its namespace and ref. */
  lemma WriterStays(cfg: Config, s: State, step: Step, h: nat)
    requires Next(cfg, s, step).Some? && h in s.writers
    ensures var s' := Next(cfg, s, step).value;
      h in s'.writers && s'.writers[h].ns == s.writers[h].ns && s'.writers[h].ref == s.writers[h].ref
  {
    hide OpenWriterTx;
    hide CommitTx;
    hide DeleteTx;
    hide AbortTx;
    hide UpdateTx;
  }

  lemma {:induction false} WriterStaysAlong(cfg: Config, states: seq<State>, steps: seq<Step>, i: nat, j: nat, h: nat)
    requires IsRun(cfg, states, steps) && i <= j < |states| && h in states[i].writers
    ensures h in states[j].writers
    ensures states[j].writers[h].ns == states[i].writers[h].ns && states[j].writers[h].ref == states[i].writers[h].ref
    decreases j - i
  {
    hide Next;
    if i < j {
      WriterStaysAlong(cfg, states, steps, i, j - 1, h);
      assert Next(cfg, states[j - 1], steps[j - 1]) == Some(states[j]);
      WriterStays(cfg, states[j - 1], steps[j - 1], h);
    }
  }

  /**
   A pull under a lease. Writer runs at step `a` and its writer is committed at
   step `b`, both under the lease. As long as the steps in between neither abort
   nor commit that ref nor end the lease, every state up to the commit has the
   ingest; as long as the later ones neither delete the blob nor end the lease,
   every state after it has the blob.
   */
  lemma LeasedPull(cfg: Config, states: seq<State>, steps: seq<Step>, a: nat, b: nat, j: nat,
                   ns: string, lease: string, ref: string, d: Digest)
    requires IsRun(cfg, states, steps) && MarkFresh(states[0]) && a < b < |steps| && a < j < |states|
    requires OpensUnder(cfg, states[a], steps[a], ns, lease, ref)
    requires CommitsUnder(cfg, states[b], steps[b], steps[a].handle, lease, d)
    requires forall k :: a < k < b ==> Harmless(cfg, states[k], steps[k], ns, lease, HeldIngest(ref))
    requires forall k :: b < k < j ==> Harmless(cfg, states[k], steps[k], ns, lease, HeldBlob(d))
    ensures j <= b ==> LeasedIngest(states[j].db, ns, lease, ref)
    ensures j > b ==> LeasedBlob(states[j].db, ns, lease, d)
  {
    hide Next;
    hide MarkFresh;
    hide Harmless;
    hide CommitsUnder;
    assert Next(cfg, states[a], steps[a]) == Some(states[a + 1]);
    assert Next(cfg, states[b], steps[b]) == Some(states[b + 1]);
    OpenedIsLeased(cfg, states[a], steps[a], ns, lease, ref);
    if j <= b {
      LeaseProtects(cfg, states, steps, a + 1, j, ns, lease, HeldIngest(ref));
    } else {
      WriterStaysAlong(cfg, states, steps, a + 1, b, steps[a].handle);
      CommittedIsLeased(cfg, states[b], steps[b], steps[a].handle, lease, d);
      LeaseProtects(cfg, states, steps, b + 1, j, ns, lease, HeldBlob(d));
    }
  }

  // ---- the bytes behind the ingest ----

  /** The step neither commits nor aborts the backend ingest `bref` itself. */
  ghost predicate Spares(cfg: Config, s: State, step: Step, bref: string) {
    step.RunTx? && step.task in s.tasks ==>
      match s.tasks[step.task].request
      case Commit(h, _, size, expected, _) =>
        h in s.writers && s.writers[h].unshared && s.writers[h].bref == bref ==>
          BackendCommit(cfg, s.backend, s.writers[h], size, expected).Err?
      case Abort(n, _, r) => r in Get(s.db, n).ingests && Get(s.db, n).ingests[r].bref == bref ==>
          Get(s.db, n).ingests[r].expected != ""
      case _ => true
  }

  lemma TxSpares(cfg: Config, s: State, t: nat, h: nat, bref: string)
    requires t in s.tasks && Spares(cfg, s, RunTx(t, h), bref) && bref in s.backend.ingests
    ensures bref in TxState(cfg, s, t, h).backend.ingests
  {
    hide CommitRecord;
    hide CanShare;
    hide AddIngestLease;
    hide AddContentLease;
    hide RemoveIngestLease;
    hide DeleteTx;
    hide UpdateTx;
  }

  /** A step other than these leaves the backend ingest of a record in place. */
  lemma StepSpares(cfg: Config, s: State, step: Step, bref: string)
    requires Seen(s) && Next(cfg, s, step).Some? && Spares(cfg, s, step, bref)
    requires RefNamed(s.db, bref) && bref in s.backend.ingests
    ensures bref in Next(cfg, s, step).value.backend.ingests
  {
    hide TxState;
    hide RefNamed;
    hide LeaseTx;
    hide SameContent;
    hide KeptNodes;
    hide Filter;
    hide ContentRemoved;
    hide SeenRefs;
    hide SeenContent;
    if step.RunTx? {
      TxSpares(cfg, s, step.task, step.handle, bref);
    }
  }

  /** An ingest record keeps its backend ref as long as it exists. */
  ghost predicate KeepsBrefs(r: Namespace, r': Namespace) {
    forall ref :: ref in r.ingests && ref in r'.ingests && r.ingests[ref].bref != "" ==>
        r'.ingests[ref].bref == r.ingests[ref].bref
  }

  lemma OpenWriterBrefs(cfg: Config, db: Database, b: Backend, q: Request)
    requires q.OpenWriter? && OpenWriterTx(cfg, db, b, q).Ok?
    ensures var db' := OpenWriterTx(cfg, db, b, q).value.db;
      q.ns in db' && db' == db[q.ns := db'[q.ns]] && KeepsBrefs(Get(db, q.ns), db'[q.ns])
  {
    hide CanShare;
    hide BackendRef;
  }

  lemma OtherBrefs(db: Database, b: Backend, q: Request)
    ensures q.Delete? && DeleteTx(db, q).Ok? ==> KeepsBrefs(Get(db, q.ns), Get(DeleteTx(db, q).value, q.ns))
    ensures q.Abort? && AbortTx(db, b, q).Ok? ==> KeepsBrefs(Get(db, q.ns), Get(AbortTx(db, b, q).value.0, q.ns))
    ensures q.Update? && UpdateTx(db, q).Ok? ==> KeepsBrefs(Get(db, q.ns), Get(UpdateTx(db, q).value, q.ns))
  {
  }

  lemma CommitBrefs(db: Database, w: Writer, l: Option<string>, d: Digest, size: int, labels: Labels)
    requires CommitRecord(db, w, l, d, size, labels).Ok?
    ensures KeepsBrefs(Get(db, w.ns), Get(CommitRecord(db, w, l, d, size, labels).value, w.ns))
  {
  }

  lemma TxKeepsBref(cfg: Config, s: State, t: nat, h: nat, ns: string, ref: string)
    requires t in s.tasks && ref in Get(s.db, ns).ingests && ref in Get(TxState(cfg, s, t, h).db, ns).ingests
    requires Get(s.db, ns).ingests[ref].bref != ""
    ensures Get(TxState(cfg, s, t, h).db, ns).ingests[ref].bref == Get(s.db, ns).ingests[ref].bref
  {
    hide OpenWriterTx;
    hide BackendCommit;
    hide AddContentLease;
    hide RemoveIngestLease;
    hide RemoveContentLease;
    var q := s.tasks[t].request;
    match q
    case OpenWriter(_, _, _, _, _, _) =>
      if OpenWriterTx(cfg, s.db, s.backend, q).Ok? {
        OpenWriterBrefs(cfg, s.db, s.backend, q);
      }
    case Commit(c, l, size, expected, labels) =>
      if c in s.writers && BackendCommit(cfg, s.backend, s.writers[c], size, expected).Ok? {
        var (d, n, _) := BackendCommit(cfg, s.backend, s.writers[c], size, expected).value;
        if CommitRecord(s.db, s.writers[c], l, d, n, labels).Ok? {
          CommitBrefs(s.db, s.writers[c], l, d, n, labels);
        }
      }
    case _ => OtherBrefs(s.db, s.backend, q);
  }

  lemma StepKeepsBref(cfg: Config, s: State, step: Step, ns: string, ref: string)
    requires Next(cfg, s, step).Some? && ref in Get(s.db, ns).ingests
    requires ref in Get(Next(cfg, s, step).value.db, ns).ingests
    requires Get(s.db, ns).ingests[ref].bref != ""
    ensures Get(Next(cfg, s, step).value.db, ns).ingests[ref].bref == Get(s.db, ns).ingests[ref].bref
  {
    if step.RunTx? {
      hide TxState;
      TxKeepsBref(cfg, s, step.task, step.handle, ns, ref);
    } else {
      hide Next;
      OutsideLock(cfg, s, step);
      assert ns in Next(cfg, s, step).value.db;
    }
  }

  /** The leased ingest is there, and so are its bytes in the backend under `bref`. */
  ghost predicate Filed(s: State, ns: string, lease: string, ref: string, bref: string) {
    LeasedIngest(s.db, ns, lease, ref) && bref != "" && s.db[ns].ingests[ref].bref == bref && bref in s.backend.ingests
  }

  lemma StepFiled(cfg: Config, s: State, step: Step, ns: string, lease: string, ref: string, bref: string)
    requires MarkFresh(s) && Seen(s) && Next(cfg, s, step).Some? && Filed(s, ns, lease, ref, bref)
    requires Harmless(cfg, s, step, ns, lease, HeldIngest(ref)) && Spares(cfg, s, step, bref)
    ensures Filed(Next(cfg, s, step).value, ns, lease, ref, bref)
  {
    hide Next;
    hide Harmless;
    hide Spares;
    hide Seen;
    hide MarkFresh;
    StepProtects(cfg, s, step, ns, lease, HeldIngest(ref));
    assert RefNamed(s.db, bref);
    StepSpares(cfg, s, step, bref);
    StepKeepsBref(cfg, s, step, ns, ref);
  }

  lemma {:induction false} StaysFiled(cfg: Config, states: seq<State>, steps: seq<Step>, i: nat, j: nat,
                                      ns: string, lease: string, ref: string, bref: string)
    requires IsRun(cfg, states, steps) && i <= j < |states| && MarkFresh(states[0]) && Seen(states[0])
    requires forall k :: i <= k < j ==>
      Harmless(cfg, states[k], steps[k], ns, lease, HeldIngest(ref)) && Spares(cfg, states[k], steps[k], bref)
    requires Filed(states[i], ns, lease, ref, bref)
    ensures Filed(states[j], ns, lease, ref, bref)
    decreases j - i
  {
    hide Next;
    hide Harmless;
    hide Spares;
    hide Seen;
    hide MarkFresh;
    hide Filed;
    if i < j {
      StaysFiled(cfg, states, steps, i, j - 1, ns, lease, ref, bref);
      assert Next(cfg, states[j - 1], steps[j - 1]) == Some(states[j]);
      RunsKeepMark(cfg, states, steps, j - 1);
      RunsKeepSeen(cfg, states, steps, j - 1);
      StepFiled(cfg, states[j - 1], steps[j - 1], ns, lease, ref, bref);
    }
  }

  lemma OpenedIsFiled(cfg: Config, s: State, step: Step, ns: string, lease: string, ref: string)
    requires Next(cfg, s, step).Some? && OpensUnder(cfg, s, step, ns, lease, ref)
    ensures step.handle in Next(cfg, s, step).value.writers
    ensures var s' := Next(cfg, s, step).value; var w := s'.writers[step.handle];
      w.unshared ==> Filed(s', ns, lease, ref, w.bref)
  {
    hide CanShare;
    OpenedIsLeased(cfg, s, step, ns, lease, ref);
  }

  /**
   The bytes of a leased pull. Once Writer has opened an ordinary writer under the
   lease, its ingest is in the backend as long as no step commits or aborts it there
   and none takes the record or ends the lease, whatever is collected and cleaned.
   */
  lemma LeasedPullKeepsBytes(cfg: Config, states: seq<State>, steps: seq<Step>, a: nat, j: nat, ns: string,
                             lease: string, ref: string)
    requires IsRun(cfg, states, steps) && Init(states[0]) && a < j < |states|
    requires OpensUnder(cfg, states[a], steps[a], ns, lease, ref)
    requires steps[a].handle in states[a + 1].writers && states[a + 1].writers[steps[a].handle].unshared
    requires var bref := states[a + 1].writers[steps[a].handle].bref;
      forall k :: a < k < j ==>
        Harmless(cfg, states[k], steps[k], ns, lease, HeldIngest(ref)) && Spares(cfg, states[k], steps[k], bref)
    ensures Filed(states[j], ns, lease, ref, states[a + 1].writers[steps[a].handle].bref)
  {
    hide Next;
    hide Harmless;
    hide Spares;
    hide OpenWriterTx;
    var n := a + 1;
    assert Next(cfg, states[a], steps[a]) == Some(states[n]);
    OpenedIsFiled(cfg, states[a], steps[a], ns, lease, ref);
    StaysFiled(cfg, states, steps, n, j, ns, lease, ref, states[n].writers[steps[a].handle].bref);
  }
}
