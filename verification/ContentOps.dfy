/**
 The content store's and the lease manager's transactions as they run, bucket by
 bucket. The namespace is worked on in a copy that a transaction writes back when
 it commits, and drops when it fails. Each transaction does what the protocol's
 transaction functions say.
 */
module ContentOps {
  import opened Bytes
  import opened Records
  import opened ContentTx

  datatype CommitReply = Committed(digest: Digest) | AlreadyExists(digest: Digest) | Failed

  class Store {
    const cfg: Config
    var db: Database
    var backend: Backend
    var dirty: nat
    var dirtyCS: bool

    constructor (cfg: Config, db: Database, backend: Backend)
      ensures this.cfg == cfg && this.db == db && this.backend == backend && dirty == 0 && !dirtyCS
    {
      this.cfg, this.db, this.backend, dirty, dirtyCS := cfg, db, backend, 0, false;
    }

    /**
     contentStore.Writer; None is the error that the blob exists already, returned
     after its transaction committed. `opens` is whether the backend opens the ingest
     when it is asked to; if it does not, the transaction is rolled back. The writer
     stands for a blob of the backend exactly when the digest names one of the right
     size and the policy, or a namespace labelled shareable that has it, allows it.
     */
    method Writer(ns: string, lease: Option<string>, ref: string, digest: Digest, size: int, now: int, opens: bool)
      returns (r: Result<Option<ContentTx.Writer>>)
      modifies this`db, this`backend
      ensures r.Ok? && r.value.Some? ==>
        var w, blobs := r.value.value, old(backend).blobs;
        && (!w.unshared <==>
            && digest != "" && digest in blobs && (size == 0 || size == |blobs[digest]|)
            && (cfg.shared || exists n ::
                  && n in old(db) && digest in old(db)[n].blobs
                  && "containerd.io/namespace.shareable" in old(db)[n].labels
                  && old(db)[n].labels["containerd.io/namespace.shareable"] == "true"))
        && w.ns == ns && w.ref == ref && w.digest == digest
        && w.size == (if w.unshared || digest !in blobs then size else |blobs[digest]|)
        && IngestFiled(Get(old(db), ns), Get(db, ns), w, lease, now)
        && IngestOpened(old(backend), backend, w)
      ensures r == Ok(None) ==>
        Listed(Get(old(db), ns), Get(db, ns), lease, ContentResource(digest)) && backend == old(backend)
      ensures r.Ok? ==> (r.value.None? <==> digest != "" && digest in Get(old(db), ns).blobs)
      ensures OnlyNamespace(old(db), db, ns)
      ensures r.Err? ==> unchanged(this)
      ensures r.Err? ==> ref == "" || (lease.Some? && lease.value !in Get(old(db), ns).leases) || !opens
      ensures r.Ok? ==> ref != "" && (lease.Some? ==> lease.value in Get(old(db), ns).leases)
      ensures r.Ok? && r.value.Some? && !opens ==> !r.value.value.unshared
      ensures var t := OpenWriterTx(cfg, old(db), old(backend), OpenWriter(ns, lease, ref, digest, size, now));
        if t.Ok? && (opens || t.value.writer.None? || !t.value.writer.value.unshared)
        then db == t.value.db && backend == t.value.backend && r == Ok(t.value.writer)
        else db == old(db) && backend == old(backend) && r.Err?
    {
      hide OpenWriterTx;
      hide AddIngestLease;
      hide AddContentLease;
      hide BackendRef;
      hide CanShare;
      hide Listed;
      hide IngestFiled;
      hide IngestOpened;
      hide OnlyNamespace;
      ghost var q := OpenWriter(ns, lease, ref, digest, size, now);
      OpenExact(cfg, db, backend, q);
      SharingExact(cfg, db, backend, digest, size);
      NoRefFails(cfg, db, backend, q);
      if ref == "" {
        return Err("ref must not be empty");
      }
      var space := Get(db, ns);
      if digest != "" && digest in space.blobs {
        ExistingIsLeased(cfg, db, backend, q);
        var leased := AddContentLease(space, lease, digest);
        if leased.Err? {
          return Err("unable to lease content");
        }
        db := db[ns := leased.value];
        return Ok(None);
      }
      var shared, descSize := Share(digest, size);
      var prior := if ref in space.ingests then space.ingests[ref] else Ingest("", "", NoExpiry);
      FreshIsFiled(cfg, db, backend, q, prior);
      var leased := AddIngestLease(WithIngest(space, ref, prior), lease, ref);
      LeaseLast(space, lease, ref, prior, NewIngest(prior, ns, lease, ref, digest, now, shared));
      if leased.Err? {
        return Err("lease does not exist");
      }
      var ingest := prior;
      if ingest.bref == "" {
        ingest := ingest.(bref := BackendRef(ns, ref));
      }
      if lease.None? {
        ingest := ingest.(expireAt := At(now + DAY));
      }
      if shared {
        ingest := ingest.(expected := digest);
      } else if !opens {
        return Err("backend refused");
      } else if ingest.bref !in backend.ingests {
        backend := backend.(ingests := backend.ingests[ingest.bref := []]);
      }
      db := db[ns := WithIngest(leased.value, ref, ingest)];
      r := Ok(Some(ContentTx.Writer(ns, ref, ingest.bref, !shared, digest, descSize)));
    }

    /** Whether the writer can stand for a blob of the backend, and the size it then takes over. */
    method Share(digest: Digest, size: int) returns (shared: bool, descSize: int)
      ensures shared == CanShare(cfg, db, backend, digest, size)
      ensures shared ==> digest in backend.blobs
      ensures descSize == if shared then |backend.blobs[digest]| else size
    {
      hide IsSharedContent;
      shared, descSize := false, size;
      if digest != "" && (cfg.shared || IsSharedContent(db, digest)) && digest in backend.blobs {
        if size == 0 || size == |backend.blobs[digest]| {
          shared, descSize := true, |backend.blobs[digest]|;
        }
      }
    }

    /**
     namespacedWriter.Commit; a blob that exists already is an error, but the rest of
     the transaction stands. The backend's part stands even when the record fails.
     */
    method Commit(w: ContentTx.Writer, handle: nat, lease: Option<string>, size: int, expected: Digest, labels: Labels)
      returns (r: CommitReply)
      modifies this`db, this`backend
      ensures r.Failed? <==>
        || (exists k :: k in labels && |k| + |labels[k]| > 4096)
        || Refused(cfg, old(backend), w, size, expected)
        || (lease.Some? && lease.value !in Get(old(db), w.ns).leases)
      ensures if !ValidLabels(labels) || Refused(cfg, old(backend), w, size, expected) then backend == old(backend)
        else Settled(cfg, old(backend), backend, w)
      ensures r.Failed? ==> db == old(db)
      ensures OnlyNamespace(old(db), db, w.ns)
      ensures !r.Failed? && !w.unshared ==> r.digest == w.digest
      ensures !r.Failed? && w.unshared ==>
        w.bref in old(backend).ingests && r.digest == cfg.hash(old(backend).ingests[w.bref])
      ensures !r.Failed? ==> r.digest in Get(db, w.ns).blobs
      ensures !r.Failed? ==> (r.AlreadyExists? <==> r.digest in Get(old(db), w.ns).blobs)
      ensures !r.Failed? ==> Recorded(Get(old(db), w.ns), Get(db, w.ns), w.ref, lease, r.digest)
      ensures r.AlreadyExists? ==> Get(db, w.ns).blobs == Get(old(db), w.ns).blobs
      ensures r.Committed? && !w.unshared ==> Get(db, w.ns).blobs[r.digest].size == w.size
      ensures r.Committed? && w.unshared ==> Get(db, w.ns).blobs[r.digest].size == |old(backend).ingests[w.bref]|
      ensures r.Committed? ==> var stored := Get(db, w.ns).blobs[r.digest].labels;
        forall k :: LookUp(stored, k) == LookUp(labels, k) && !(k in stored && stored[k] == "")
      ensures var q := ContentTx.Commit(handle, lease, size, expected, labels);
        var (t, b) := CommitTx(cfg, old(db), old(backend), w, q);
        && backend == b
        && db == (if t.Ok? then t.value else old(db))
        && (r.Failed? <==> t.Err?)
    {
      hide Refused;
      hide Settled;
      hide Recorded;
      hide OnlyNamespace;
      hide WrittenLabels;
      hide AddContentLease;
      hide RemoveIngestLease;
      hide BackendCommit;
      hide CommitTx;
      hide LookUp;
      hide OnlyListings;
      CommitSteps(cfg, db, backend, w, ContentTx.Commit(handle, lease, size, expected, labels));
      RefusedExact(cfg, backend, w, size, expected);
      PutIsOnly(db, w.ns, Get(db, w.ns));
      if !ValidLabels(labels) {
        return Failed;
      }
      var c := BackendCommit(cfg, backend, w, size, expected);
      if c.Err? {
        return Failed;
      }
      var (d, n, b) := c.value;
      backend := b;
      var space := Get(db, w.ns);
      var there := d in space.blobs;
      if !there {
        space := space.(blobs := space.blobs[d := Blob(n, WrittenLabels(labels))]);
      }
      space := space.(ingests := space.ingests - {w.ref});
      RecordedExact(Get(db, w.ns), space, w.ref, lease, d);
      space := RemoveIngestLease(space, lease, w.ref);
      var leased := AddContentLease(space, lease, d);
      if leased.Err? {
        return Failed;
      }
      PutIsOnly(db, w.ns, leased.value);
      WrittenExact(labels);
      db := db[w.ns := leased.value];
      r := if there then AlreadyExists(d) else Committed(d);
    }

    /** The blob and its listing by the caller's lease are gone, and nothing else is. */
    method Delete(ns: string, lease: Option<string>, digest: Digest) returns (ok: bool)
      modifies this
      ensures ok <==> digest in Get(old(db), ns).blobs
      ensures !ok ==> unchanged(this)
      ensures backend == old(backend) && OnlyNamespace(old(db), db, ns)
      ensures ok ==> dirty == old(dirty) + 1 && dirtyCS
      ensures ok ==> var r, r' := Get(old(db), ns), Get(db, ns);
        && (forall d :: d in r'.blobs <==> d in r.blobs && d != digest)
        && (forall d :: d in r'.blobs ==> r'.blobs[d] == r.blobs[d])
        && Delisted(r.(blobs := r'.blobs), r', lease, ContentResource(digest))
      ensures ok ==> DeleteTx(old(db), ContentTx.Delete(ns, lease, digest)) == Ok(db)
    {
      var r := Get(db, ns);
      if digest !in r.blobs {
        return false;
      }
      RemoveContentLeaseExact(r.(blobs := r.blobs - {digest}), lease, digest);
      r := RemoveContentLease(r.(blobs := r.blobs - {digest}), lease, digest);
      db := db[ns := r];
      dirty, dirtyCS, ok := dirty + 1, true, true;
    }

    /**
     The ingest and its listing by the caller's lease are gone. The backend's ingest
     goes with it unless a digest is expected, which a shared writer stands for.
     `aborts` is whether the backend aborts when it is asked to.
     */
    method Abort(ns: string, lease: Option<string>, ref: string, aborts: bool) returns (ok: bool)
      modifies this`db, this`backend
      ensures var r := Get(old(db), ns);
        ok <==> ref in r.ingests && r.ingests[ref].bref != "" && (r.ingests[ref].expected == "" ==> aborts)
      ensures !ok ==> unchanged(this)
      ensures OnlyNamespace(old(db), db, ns) && backend.blobs == old(backend).blobs
      ensures ok ==> var r, r' := Get(old(db), ns), Get(db, ns);
        && (forall x :: x in r'.ingests <==> x in r.ingests && x != ref)
        && (forall x :: x in r'.ingests ==> r'.ingests[x] == r.ingests[x])
        && Delisted(r.(ingests := r'.ingests), r', lease, IngestResource(ref))
        && (forall x :: x in backend.ingests <==>
            x in old(backend).ingests && !(r.ingests[ref].expected == "" && x == r.ingests[ref].bref))
        && (forall x :: x in backend.ingests ==> backend.ingests[x] == old(backend).ingests[x])
      ensures ok ==> AbortTx(old(db), old(backend), ContentTx.Abort(ns, lease, ref)) == Ok((db, backend))
    {
      var r := Get(db, ns);
      if ref !in r.ingests || r.ingests[ref].bref == "" {
        return false;
      }
      var bref, expected := r.ingests[ref].bref, r.ingests[ref].expected;
      RemoveIngestLeaseExact(r.(ingests := r.ingests - {ref}), lease, ref);
      r := RemoveIngestLease(r.(ingests := r.ingests - {ref}), lease, ref);
      if expected == "" {
        if !aborts {
          return false;
        }
        backend := backend.(ingests := backend.ingests - {bref});
      }
      db := db[ns := r];
      ok := true;
    }

    /**
     leaseManager's Create, Delete, AddResource and DeleteResource. Only the lease
     itself, or its listing of the one resource, changes; releasing something leaves
     work for the collector.
     */
    method Lease(op: LeaseOp) returns (ok: bool)
      modifies this`db, this`dirty
      ensures var leases := Get(old(db), op.ns).leases;
        ok <==> if op.CreateLease? then op.id != "" && op.id !in leases else op.id in leases
      ensures !ok ==> unchanged(this)
      ensures OnlyNamespace(old(db), db, op.ns)
      ensures ok ==> LeaseChanged(Get(old(db), op.ns), Get(db, op.ns), op)
      ensures dirty == old(dirty) + if ok && (op.DeleteLease? || op.DeleteResource?) then 1 else 0
      ensures ok ==> LeaseTx(old(db), op) == Ok(db)
    {
      hide LeaseChanged;
      hide OnlyNamespace;
      LeaseTxExact(db, op);
      var r := Get(db, op.ns);
      match op
      case CreateLease(ns, id, labels) =>
        if id == "" || id in r.leases {
          return false;
        }
        db := db[ns := UpdateLease(r, id, Records.Lease(WrittenLabels(labels), {}, {}, {}, {}))];
        ok := true;
      case DeleteLease(ns, id) =>
        if id !in r.leases {
          return false;
        }
        db := db[ns := r.(leases := r.leases - {id})];
        dirty, ok := dirty + 1, true;
      case AddResource(ns, id, res) =>
        if id !in r.leases {
          return false;
        }
        db := db[ns := UpdateLease(r, id, AddTo(r.leases[id], res))];
        ok := true;
      case DeleteResource(ns, id, res) =>
        if id !in r.leases {
          return false;
        }
        db := db[ns := UpdateLease(r, id, RemoveFrom(r.leases[id], res))];
        dirty, ok := dirty + 1, true;
    }
  }

  /** The ingest record that Writer leaves for `w`, listed by the caller's lease; the other ingests stay. */
  ghost predicate IngestFiled(r: Namespace, r': Namespace, w: ContentTx.Writer, lease: Option<string>, now: int) {
    var prior := if w.ref in r.ingests then r.ingests[w.ref] else Ingest("", "", NoExpiry);
    && Listed(r.(ingests := r'.ingests), r', lease, IngestResource(w.ref))
    && w.ref in r'.ingests
    && r'.ingests[w.ref].bref == w.bref
    && w.bref == (if prior.bref == "" then w.ns + "/1/" + w.ref else prior.bref)
    && r'.ingests[w.ref].expected == (if w.unshared then prior.expected else w.digest)
    && r'.ingests[w.ref].expireAt == (if lease.None? then At(now + 86_400_000_000_000) else prior.expireAt)
    && (forall x :: x != w.ref ==> (x in r'.ingests <==> x in r.ingests))
    && (forall x :: x != w.ref && x in r.ingests ==> r'.ingests[x] == r.ingests[x])
  }

  /** The backend has an ingest for a writer of its own, empty if it is new; nothing else there changes. */
  ghost predicate IngestOpened(b: Backend, b': Backend, w: ContentTx.Writer) {
    && b'.blobs == b.blobs
    && (forall x :: x in b'.ingests <==> x in b.ingests || (w.unshared && x == w.bref))
    && (forall x :: x in b'.ingests ==> b'.ingests[x] == if x in b.ingests then b.ingests[x] else [])
  }

  /** The backend does not take the commit: its ingest is gone, or the size or the digest is not the one asked for. */
  ghost predicate Refused(cfg: Config, b: Backend, w: ContentTx.Writer, size: int, expected: Digest) {
    if !w.unshared then (size != 0 && size != w.size) || (expected != "" && expected != w.digest)
    else
      || w.bref !in b.ingests
      || (size != 0 && size != |b.ingests[w.bref]|)
      || (expected != "" && expected != cfg.hash(b.ingests[w.bref]))
  }

  /** The ingest is now a blob under its digest, unless that was there; a shared writer leaves the backend be. */
  ghost predicate Settled(cfg: Config, b: Backend, b': Backend, w: ContentTx.Writer) {
    if !w.unshared then b' == b
    else
      && w.bref in b.ingests
      && var d := cfg.hash(b.ingests[w.bref]);
         && (forall x :: x in b'.blobs <==> x in b.blobs || x == d)
         && (forall x :: x in b'.blobs ==> b'.blobs[x] == if x in b.blobs then b.blobs[x] else b.ingests[w.bref])
         && (forall x :: x in b'.ingests <==> x in b.ingests && x != w.bref)
         && (forall x :: x in b'.ingests ==> b'.ingests[x] == b.ingests[x])
  }

  /**
   Of the blobs only `d` may be new, of the ingests only `ref` is gone, and the
   caller's lease lists the digest in place of the ref; nothing else has changed.
   */
  ghost predicate Recorded(r: Namespace, r': Namespace, ref: string, lease: Option<string>, d: Digest) {
    && OnlyListings(r.(blobs := r'.blobs, ingests := r'.ingests), r')
    && (forall x :: x != d ==> (x in r'.blobs <==> x in r.blobs))
    && (forall x :: x in r.blobs ==> x in r'.blobs && r'.blobs[x] == r.blobs[x])
    && (forall x :: x in r'.ingests <==> x in r.ingests && x != ref)
    && (forall x :: x in r'.ingests ==> r'.ingests[x] == r.ingests[x])
    && (forall id, y :: Lists(r', id, y) <==>
          || (Lists(r, id, y) && !(lease == Some(id) && y == IngestResource(ref)))
          || (lease == Some(id) && y == ContentResource(d)))
  }

  /** No other namespace has changed. */
  ghost predicate OnlyNamespace(db: Database, db': Database, ns: string) {
    forall n :: n != ns ==> (n in db' <==> n in db) && (n in db ==> db'[n] == db[n])
  }

  /** What a lease operation does to the leases of its namespace, and to nothing else there. */
  ghost predicate LeaseChanged(r: Namespace, r': Namespace, op: LeaseOp) {
    match op
    case CreateLease(_, id, labels) =>
      && r' == r.(leases := r'.leases) && r'.leases.Keys == r.leases.Keys + {id}
      && r'.leases[id].labels == WrittenLabels(labels)
      && (forall i :: i in r.leases ==> r'.leases[i] == r.leases[i])
      && (forall x :: !Lists(r', id, x))
    case DeleteLease(_, id) =>
      && r' == r.(leases := r'.leases) && r'.leases.Keys == r.leases.Keys - {id}
      && (forall i :: i in r'.leases ==> r'.leases[i] == r.leases[i])
    case AddResource(_, id, x) => Listed(r, r', Some(id), x)
    case DeleteResource(_, id, x) => Delisted(r, r', Some(id), x)
  }

  lemma PutIsOnly(db: Database, ns: string, r: Namespace)
    ensures OnlyNamespace(db, db, ns) && OnlyNamespace(db, db[ns := r], ns) && Get(db[ns := r], ns) == r
  {
  }

  lemma CreateChanges(r: Namespace, ns: string, id: string, labels: Labels)
    requires id !in r.leases
    ensures var l := Records.Lease(WrittenLabels(labels), {}, {}, {}, {});
      LeaseChanged(r, UpdateLease(r, id, l), CreateLease(ns, id, labels))
  {
    assert r.leases[id := Records.Lease(WrittenLabels(labels), {}, {}, {}, {})].Keys == r.leases.Keys + {id};
  }

  lemma DeleteChanges(r: Namespace, ns: string, id: string)
    ensures LeaseChanged(r, r.(leases := r.leases - {id}), DeleteLease(ns, id))
  {
  }

  /** What a lease operation needs, and all that it changes. */
  lemma LeaseTxExact(db: Database, op: LeaseOp)
    ensures var leases := Get(db, op.ns).leases;
      LeaseTx(db, op).Ok? <==> if op.CreateLease? then op.id != "" && op.id !in leases else op.id in leases
    ensures OnlyNamespace(db, db, op.ns)
    ensures LeaseTx(db, op).Ok? ==> OnlyNamespace(db, LeaseTx(db, op).value, op.ns)
    ensures LeaseTx(db, op).Ok? ==> LeaseChanged(Get(db, op.ns), Get(LeaseTx(db, op).value, op.ns), op)
  {
    hide OnlyNamespace;
    hide LeaseChanged;
    hide UpdateLease;
    var r := Get(db, op.ns);
    PutIsOnly(db, op.ns, r);
    if LeaseTx(db, op).Ok? {
      PutIsOnly(db, op.ns, LeaseTx(db, op).value[op.ns]);
      match op
      case CreateLease(ns, id, labels) => CreateChanges(r, ns, id, labels);
      case DeleteLease(ns, id) => DeleteChanges(r, ns, id);
      case AddResource(ns, id, x) => ResourceChanges(r, ns, id, x);
      case DeleteResource(ns, id, x) => ResourceChanges(r, ns, id, x);
    }
  }

  lemma ResourceChanges(r: Namespace, ns: string, id: string, x: Resource)
    requires id in r.leases
    ensures LeaseChanged(r, UpdateLease(r, id, AddTo(r.leases[id], x)), AddResource(ns, id, x))
    ensures LeaseChanged(r, UpdateLease(r, id, RemoveFrom(r.leases[id], x)), DeleteResource(ns, id, x))
  {
    hide Listed;
    hide Delisted;
    ListingExact(r, id, x);
  }

  function WithIngest(r: Namespace, ref: string, ingest: Ingest): Namespace {
    r.(ingests := r.ingests[ref := ingest])
  }

  /** Leasing the ref between two writes of the ingest is the same as leasing it after the last one. */
  lemma LeaseLast(r: Namespace, lease: Option<string>, ref: string, first: Ingest, last: Ingest)
    ensures var a := AddIngestLease(WithIngest(r, ref, first), lease, ref);
      var b := AddIngestLease(WithIngest(r, ref, last), lease, ref);
      a.Ok? == b.Ok? && (a.Ok? ==> WithIngest(a.value, ref, last) == b.value)
  {
    assert r.ingests[ref := first][ref := last] == r.ingests[ref := last];
  }

  /** The ingest as Writer leaves it. */
  function NewIngest(prior: Ingest, ns: string, lease: Option<string>, ref: string, digest: Digest, now: int,
                     shared: bool): Ingest {
    Ingest(if prior.bref == "" then BackendRef(ns, ref) else prior.bref,
           if shared then digest else prior.expected,
           if lease.None? then At(now + DAY) else prior.expireAt)
  }

  /** When a writer may stand for a blob, on the records. */
  lemma SharingExact(cfg: Config, db: Database, b: Backend, digest: Digest, size: int)
    ensures CanShare(cfg, db, b, digest, size) <==>
      && digest != "" && digest in b.blobs && (size == 0 || size == |b.blobs[digest]|)
      && (cfg.shared || exists n ::
            && n in db && digest in db[n].blobs
            && "containerd.io/namespace.shareable" in db[n].labels
            && db[n].labels["containerd.io/namespace.shareable"] == "true")
  {
  }

  lemma FiledExact(r: Namespace, w: ContentTx.Writer, lease: Option<string>, now: int, prior: Ingest, ingest: Ingest)
    requires prior == if w.ref in r.ingests then r.ingests[w.ref] else Ingest("", "", NoExpiry)
    requires ingest == NewIngest(prior, w.ns, lease, w.ref, w.digest, now, !w.unshared) && w.bref == ingest.bref
    ensures var l := AddIngestLease(WithIngest(r, w.ref, ingest), lease, w.ref);
      && (l.Ok? <==> lease.None? || lease.value in r.leases)
      && (l.Ok? ==> IngestFiled(r, l.value, w, lease, now))
  {
    hide Listed;
    hide AddIngestLease;
    AddIngestLeaseExact(WithIngest(r, w.ref, ingest), lease, w.ref);
  }

  /** What Writer's transaction needs and all that it changes, on the records. */
  lemma OpenExact(cfg: Config, db: Database, b: Backend, q: Request)
    requires q.OpenWriter?
    ensures var t, r := OpenWriterTx(cfg, db, b, q), Get(db, q.ns);
      && (t.Ok? <==> q.ref != "" && (q.lease.Some? ==> q.lease.value in r.leases))
      && (t.Ok? ==> OnlyNamespace(db, t.value.db, q.ns))
      && (t.Ok? ==> (t.value.writer.None? <==> q.digest != "" && q.digest in r.blobs))
      && (t.Ok? && t.value.writer.None? ==>
            Listed(r, Get(t.value.db, q.ns), q.lease, ContentResource(q.digest)) && t.value.backend == b)
      && (t.Ok? && t.value.writer.Some? ==> var w := t.value.writer.value;
            && (!w.unshared <==> CanShare(cfg, db, b, q.digest, q.size))
            && w.ns == q.ns && w.ref == q.ref && w.digest == q.digest
            && w.size == (if w.unshared || q.digest !in b.blobs then q.size else |b.blobs[q.digest]|)
            && IngestFiled(r, Get(t.value.db, q.ns), w, q.lease, q.now)
            && IngestOpened(b, t.value.backend, w))
    ensures OnlyNamespace(db, db, q.ns)
  {
    hide OpenWriterTx;
    hide AddIngestLease;
    hide AddContentLease;
    hide CanShare;
    hide Listed;
    hide IngestFiled;
    hide OnlyNamespace;
    hide NewIngest;
    hide WithIngest;
    var r := Get(db, q.ns);
    NoRefFails(cfg, db, b, q);
    PutIsOnly(db, q.ns, r);
    if q.ref != "" && q.digest != "" && q.digest in r.blobs {
      ExistingIsLeased(cfg, db, b, q);
      AddContentLeaseExact(r, q.lease, q.digest);
      var l := AddContentLease(r, q.lease, q.digest);
      if l.Ok? {
        PutIsOnly(db, q.ns, l.value);
      }
    } else if q.ref != "" {
      var prior := if q.ref in r.ingests then r.ingests[q.ref] else Ingest("", "", NoExpiry);
      FreshIsFiled(cfg, db, b, q, prior);
      var share := CanShare(cfg, db, b, q.digest, q.size);
      var ingest := NewIngest(prior, q.ns, q.lease, q.ref, q.digest, q.now, share);
      var size := if share && q.digest in b.blobs then |b.blobs[q.digest]| else q.size;
      var w := ContentTx.Writer(q.ns, q.ref, ingest.bref, !share, q.digest, size);
      FiledExact(r, w, q.lease, q.now, prior, ingest);
      var l := AddIngestLease(WithIngest(r, q.ref, ingest), q.lease, q.ref);
      if l.Ok? {
        PutIsOnly(db, q.ns, l.value);
      }
    }
  }

  lemma RefusedExact(cfg: Config, b: Backend, w: ContentTx.Writer, size: int, expected: Digest)
    ensures var c := BackendCommit(cfg, b, w, size, expected);
      && (c.Err? <==> Refused(cfg, b, w, size, expected))
      && (c.Ok? ==> Settled(cfg, b, c.value.2, w))
      && (c.Ok? && !w.unshared ==> c.value.0 == w.digest && c.value.1 == w.size)
      && (c.Ok? && w.unshared ==>
            && w.bref in b.ingests
            && c.value.0 == cfg.hash(b.ingests[w.bref]) && c.value.1 == |b.ingests[w.bref]|)
  {
  }

  /** The blobs as Commit leaves them, and the transaction in terms of the steps it takes. */
  function WithBlob(r: Namespace, d: Digest, size: int, labels: Labels): Namespace {
    if d in r.blobs then r else r.(blobs := r.blobs[d := Blob(size, WrittenLabels(labels))])
  }

  lemma CommitSteps(cfg: Config, db: Database, b: Backend, w: ContentTx.Writer, q: Request)
    requires q.Commit?
    ensures var c, t := BackendCommit(cfg, b, w, q.size, q.expected), CommitTx(cfg, db, b, w, q);
      && (!ValidLabels(q.labels) || c.Err? ==> t.0.Err? && t.1 == b)
      && (ValidLabels(q.labels) && c.Ok? ==>
            var r := WithBlob(Get(db, w.ns), c.value.0, c.value.1, q.labels);
            var s := RemoveIngestLease(r.(ingests := r.ingests - {w.ref}), q.lease, w.ref);
            var l := AddContentLease(s, q.lease, c.value.0);
            t.1 == c.value.2 && t.0.Ok? == l.Ok? && (l.Ok? ==> t.0 == Ok(db[w.ns := l.value])))
  {
    hide BackendCommit;
    hide AddContentLease;
    hide RemoveIngestLease;
    hide WrittenLabels;
  }

  lemma WrittenExact(labels: Labels)
    ensures var stored := WrittenLabels(labels);
      forall k :: LookUp(stored, k) == LookUp(labels, k) && !(k in stored && stored[k] == "")
  {
  }

  /** Delisting the ref and then listing the digest, around the records that Commit writes. */
  lemma RecordedExact(r: Namespace, s: Namespace, ref: string, lease: Option<string>, d: Digest)
    requires s == r.(blobs := s.blobs, ingests := r.ingests - {ref})
    requires forall x :: x != d ==> (x in s.blobs <==> x in r.blobs)
    requires forall x :: x in r.blobs ==> x in s.blobs && s.blobs[x] == r.blobs[x]
    ensures var l := AddContentLease(RemoveIngestLease(s, lease, ref), lease, d);
      && (l.Ok? <==> lease.None? || lease.value in r.leases)
      && (l.Ok? ==> Recorded(r, l.value, ref, lease, d))
  {
    hide InLease;
    hide AddContentLease;
    hide RemoveIngestLease;
    var t := RemoveIngestLease(s, lease, ref);
    RemoveIngestLeaseExact(s, lease, ref);
    AddContentLeaseExact(t, lease, d);
  }

  // What the protocol's Writer step is in each case.

  lemma NoRefFails(cfg: Config, db: Database, b: Backend, q: Request)
    requires q.OpenWriter?
    ensures q.ref == "" ==> OpenWriterTx(cfg, db, b, q).Err?
  {
  }

  lemma ExistingIsLeased(cfg: Config, db: Database, b: Backend, q: Request)
    requires q.OpenWriter? && q.ref != "" && q.digest != "" && q.digest in Get(db, q.ns).blobs
    ensures var l, t := AddContentLease(Get(db, q.ns), q.lease, q.digest), OpenWriterTx(cfg, db, b, q);
      if l.Ok? then t == Ok(Opened(db[q.ns := l.value], b, None)) else t.Err?
  {
  }

  lemma FreshIsFiled(cfg: Config, db: Database, b: Backend, q: Request, prior: Ingest)
    requires q.OpenWriter? && q.ref != "" && !(q.digest != "" && q.digest in Get(db, q.ns).blobs)
    requires prior == if q.ref in Get(db, q.ns).ingests then Get(db, q.ns).ingests[q.ref] else Ingest("", "", NoExpiry)
    ensures var share, t := CanShare(cfg, db, b, q.digest, q.size), OpenWriterTx(cfg, db, b, q);
      var ingest := NewIngest(prior, q.ns, q.lease, q.ref, q.digest, q.now, share);
      var l := AddIngestLease(WithIngest(Get(db, q.ns), q.ref, ingest), q.lease, q.ref);
      var b' := if share || ingest.bref in b.ingests then b else b.(ingests := b.ingests[ingest.bref := []]);
      && (l.Err? ==> t.Err?)
      && (l.Ok? ==> t.Ok? && t.value.db == db[q.ns := l.value] && t.value.backend == b' && t.value.writer.Some?)
      && (l.Ok? ==> var size := if share && q.digest in b.blobs then |b.blobs[q.digest]| else q.size;
            t.value.writer.value == ContentTx.Writer(q.ns, q.ref, ingest.bref, !share, q.digest, size))
  {
    hide AddIngestLease;
    hide IsSharedContent;
    hide BackendRef;
  }
}
