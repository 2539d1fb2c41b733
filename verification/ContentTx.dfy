/**
 The transactions of the namespaced content store and of the lease manager, each
 as a function from the state it reads to the state it leaves. A transaction
 that fails leaves the database as it was; what it has already done to the
 backend stays.
 */
module ContentTx {
  import opened Bytes
  import opened Records

  /** `shared` is the sharing policy; `hash` the digest algorithm. */
  datatype Config = Config(shared: bool, hash: Data -> Digest)

  /** The backend content store: committed blobs and open ingests. */
  datatype Backend = Backend(blobs: map<Digest, Data>, ingests: map<string, Data>)

  /** A namespacedWriter. While `unshared` is false it has no backend writer and stands for the blob `digest`. */
  datatype Writer = Writer(ns: string, ref: string, bref: string, unshared: bool, digest: Digest, size: int)

  const LABEL_SHARED_NAMESPACE := "containerd.io/namespace.shareable"
  const DAY := 24 * 60 * 60 * 1_000_000_000

  function Get(db: Database, ns: string): Namespace {
    if ns in db then db[ns] else EMPTY_NAMESPACE
  }

  /** createKey(sid, ns, ref): a new ingest bucket hands out sequence number 1. */
  function BackendRef(ns: string, ref: string): string {
    ns + "/1/" + ref
  }

  // ---- leases ----

  function UpdateLease(r: Namespace, id: string, l: Lease): Namespace {
    r.(leases := r.leases[id := l])
  }

  /** addContentLease and addIngestLease: nothing without a lease in the context, an error if it is gone. */
  function AddContentLease(r: Namespace, lease: Option<string>, d: Digest): (res: Result<Namespace>)
    ensures res.Ok? ==> res.value.blobs == r.blobs && res.value.ingests == r.ingests
    ensures res.Ok? && lease.Some? ==> lease.value in res.value.leases && d in res.value.leases[lease.value].content
  {
    match lease
    case None => Ok(r)
    case Some(id) =>
      if id !in r.leases then Err("lease does not exist")
      else Ok(UpdateLease(r, id, r.leases[id].(content := r.leases[id].content + {d})))
  }

  function AddIngestLease(r: Namespace, lease: Option<string>, ref: string): (res: Result<Namespace>)
    ensures res.Ok? ==> res.value.blobs == r.blobs && res.value.ingests == r.ingests
    ensures res.Ok? && lease.Some? ==> lease.value in res.value.leases && ref in res.value.leases[lease.value].ingests
  {
    match lease
    case None => Ok(r)
    case Some(id) =>
      if id !in r.leases then Err("lease does not exist")
      else Ok(UpdateLease(r, id, r.leases[id].(ingests := r.leases[id].ingests + {ref})))
  }

  function RemoveContentLease(r: Namespace, lease: Option<string>, d: Digest): (r': Namespace)
    ensures r'.blobs == r.blobs && r'.ingests == r.ingests
  {
    if lease.None? || lease.value !in r.leases then r
    else UpdateLease(r, lease.value, r.leases[lease.value].(content := r.leases[lease.value].content - {d}))
  }

  function RemoveIngestLease(r: Namespace, lease: Option<string>, ref: string): (r': Namespace)
    ensures r'.blobs == r.blobs && r'.ingests == r.ingests
  {
    if lease.None? || lease.value !in r.leases then r
    else UpdateLease(r, lease.value, r.leases[lease.value].(ingests := r.leases[lease.value].ingests - {ref}))
  }

  datatype Resource =
    | ContentResource(digest: Digest)
    | IngestResource(ref: string)
    | ImageResource(name: string)
    | SnapshotResource(ss: Snapshotter, key: string)

  function AddTo(l: Lease, r: Resource): Lease {
    match r
    case ContentResource(d) => l.(content := l.content + {d})
    case IngestResource(ref) => l.(ingests := l.ingests + {ref})
    case ImageResource(n) => l.(images := l.images + {n})
    case SnapshotResource(ss, k) => l.(snapshots := l.snapshots + {(ss, k)})
  }

  function RemoveFrom(l: Lease, r: Resource): Lease {
    match r
    case ContentResource(d) => l.(content := l.content - {d})
    case IngestResource(ref) => l.(ingests := l.ingests - {ref})
    case ImageResource(n) => l.(images := l.images - {n})
    case SnapshotResource(ss, k) => l.(snapshots := l.snapshots - {(ss, k)})
  }

  predicate InLease(l: Lease, x: Resource) {
    match x
    case ContentResource(d) => d in l.content
    case IngestResource(ref) => ref in l.ingests
    case ImageResource(n) => n in l.images
    case SnapshotResource(ss, k) => (ss, k) in l.snapshots
  }

  /** Lease `id` lists `x`. */
  predicate Lists(r: Namespace, id: string, x: Resource) {
    id in r.leases && InLease(r.leases[id], x)
  }

  /** The same leases with the same labels, and nothing but leases may differ. */
  ghost predicate OnlyListings(r: Namespace, r': Namespace) {
    && r' == r.(leases := r'.leases) && r'.leases.Keys == r.leases.Keys
    && forall id :: id in r.leases ==> r'.leases[id].labels == r.leases[id].labels
  }

  /** `x` has been listed by the lease, if there is one, and nothing else has changed. */
  ghost predicate Listed(r: Namespace, r': Namespace, lease: Option<string>, x: Resource) {
    OnlyListings(r, r') && forall id, y :: Lists(r', id, y) <==> Lists(r, id, y) || (lease == Some(id) && y == x)
  }

  /** `x` is no longer listed by the lease, if there is one, and nothing else has changed. */
  ghost predicate Delisted(r: Namespace, r': Namespace, lease: Option<string>, x: Resource) {
    OnlyListings(r, r') && forall id, y :: Lists(r', id, y) <==> Lists(r, id, y) && !(lease == Some(id) && y == x)
  }

  lemma AddToExact(l: Lease, x: Resource, y: Resource)
    ensures InLease(AddTo(l, x), y) <==> InLease(l, y) || y == x
    ensures InLease(RemoveFrom(l, x), y) <==> InLease(l, y) && y != x
    ensures AddTo(l, x).labels == RemoveFrom(l, x).labels == l.labels
  {
  }

  lemma ListingExact(r: Namespace, id: string, x: Resource)
    requires id in r.leases
    ensures Listed(r, UpdateLease(r, id, AddTo(r.leases[id], x)), Some(id), x)
    ensures Delisted(r, UpdateLease(r, id, RemoveFrom(r.leases[id], x)), Some(id), x)
  {
    hide InLease;
    hide AddTo;
    hide RemoveFrom;
    var l := r.leases[id];
    forall y
      ensures InLease(AddTo(l, x), y) <==> InLease(l, y) || y == x
      ensures InLease(RemoveFrom(l, x), y) <==> InLease(l, y) && y != x
    {
      AddToExact(l, x, y);
    }
    AddToExact(l, x, x);
    assert r.leases[id := AddTo(l, x)].Keys == r.leases.Keys == r.leases[id := RemoveFrom(l, x)].Keys;
  }

  lemma NoListing(r: Namespace, lease: Option<string>, x: Resource)
    requires lease.Some? ==> lease.value !in r.leases
    ensures Delisted(r, r, lease, x) && (lease.None? ==> Listed(r, r, lease, x))
  {
    hide InLease;
  }

  /** The helpers of Writer, Commit, Delete and Abort change the one listing of the caller's lease and nothing else. */
  lemma AddContentLeaseExact(r: Namespace, lease: Option<string>, d: Digest)
    ensures AddContentLease(r, lease, d).Ok? <==> lease.None? || lease.value in r.leases
    ensures AddContentLease(r, lease, d).Ok? ==>
      Listed(r, AddContentLease(r, lease, d).value, lease, ContentResource(d))
  {
    hide Listed;
    if lease.Some? && lease.value in r.leases {
      ListingExact(r, lease.value, ContentResource(d));
    } else {
      NoListing(r, lease, ContentResource(d));
    }
  }

  lemma AddIngestLeaseExact(r: Namespace, lease: Option<string>, ref: string)
    ensures AddIngestLease(r, lease, ref).Ok? <==> lease.None? || lease.value in r.leases
    ensures AddIngestLease(r, lease, ref).Ok? ==>
      Listed(r, AddIngestLease(r, lease, ref).value, lease, IngestResource(ref))
  {
    hide Listed;
    if lease.Some? && lease.value in r.leases {
      ListingExact(r, lease.value, IngestResource(ref));
    } else {
      NoListing(r, lease, IngestResource(ref));
    }
  }

  lemma RemoveContentLeaseExact(r: Namespace, lease: Option<string>, d: Digest)
    ensures Delisted(r, RemoveContentLease(r, lease, d), lease, ContentResource(d))
  {
    hide Delisted;
    if lease.Some? && lease.value in r.leases {
      ListingExact(r, lease.value, ContentResource(d));
    } else {
      NoListing(r, lease, ContentResource(d));
    }
  }

  lemma RemoveIngestLeaseExact(r: Namespace, lease: Option<string>, ref: string)
    ensures Delisted(r, RemoveIngestLease(r, lease, ref), lease, IngestResource(ref))
  {
    hide Delisted;
    if lease.Some? && lease.value in r.leases {
      ListingExact(r, lease.value, IngestResource(ref));
    } else {
      NoListing(r, lease, IngestResource(ref));
    }
  }

  datatype LeaseOp =
    | CreateLease(ns: string, id: string, labels: Labels)
    | DeleteLease(ns: string, id: string)
    | AddResource(ns: string, id: string, r: Resource)
    | DeleteResource(ns: string, id: string, r: Resource)

  /** The lease manager's transactions. */
  function LeaseTx(db: Database, op: LeaseOp): Result<Database> {
    var r := Get(db, op.ns);
    match op
    case CreateLease(ns, id, labels) =>
      if id == "" then Err("lease id must be provided")
      else if id in r.leases then Err("already exists")
      else Ok(db[ns := UpdateLease(r, id, Lease(WrittenLabels(labels), {}, {}, {}, {}))])
    case DeleteLease(ns, id) =>
      if id !in r.leases then Err("not found") else Ok(db[ns := r.(leases := r.leases - {id})])
    case AddResource(ns, id, res) =>
      if id !in r.leases then Err("not found") else Ok(db[ns := UpdateLease(r, id, AddTo(r.leases[id], res))])
    case DeleteResource(ns, id, res) =>
      if id !in r.leases then Err("not found") else Ok(db[ns := UpdateLease(r, id, RemoveFrom(r.leases[id], res))])
  }

  // ---- the content store ----

  datatype Request =
    | OpenWriter(ns: string, lease: Option<string>, ref: string, digest: Digest, size: int, now: int)
    | Commit(handle: nat, lease: Option<string>, size: int, expected: Digest, labels: Labels)
    | Delete(ns: string, lease: Option<string>, digest: Digest)
    | Abort(ns: string, lease: Option<string>, ref: string)
    | Update(ns: string, digest: Digest, labels: Labels)

  /** What Writer leaves; `writer` is the one it hands out, none when the blob exists already. */
  datatype Opened = Opened(db: Database, backend: Backend, writer: Option<Writer>)

  /** A namespace marked shareable holds the blob. */
  predicate IsSharedContent(db: Database, d: Digest) {
    exists ns :: ns in db && d in db[ns].blobs
      && LABEL_SHARED_NAMESPACE in db[ns].labels && db[ns].labels[LABEL_SHARED_NAMESPACE] == "true"
  }

  /** Writer may stand for a blob that the backend already has. */
  predicate CanShare(cfg: Config, db: Database, b: Backend, d: Digest, size: int) {
    d != "" && (cfg.shared || IsSharedContent(db, d)) && d in b.blobs && (size == 0 || size == |b.blobs[d]|)
  }

  function OpenWriterTx(cfg: Config, db: Database, b: Backend, q: Request): Result<Opened>
    requires q.OpenWriter?
  {
    var r := Get(db, q.ns);
    if q.ref == "" then Err("ref must not be empty")
    else if q.digest != "" && q.digest in r.blobs then
      (match AddContentLease(r, q.lease, q.digest)
       case Err(e) => Err(e)
       case Ok(r') => Ok(Opened(db[q.ns := r'], b, None)))
    else
      var share := CanShare(cfg, db, b, q.digest, q.size);
      var prior := if q.ref in r.ingests then r.ingests[q.ref] else Ingest("", "", NoExpiry);
      var bref := if prior.bref == "" then BackendRef(q.ns, q.ref) else prior.bref;
      var ingest := Ingest(bref,
                           if share then q.digest else prior.expected,
                           if q.lease.None? then At(q.now + DAY) else prior.expireAt);
      match AddIngestLease(r.(ingests := r.ingests[q.ref := ingest]), q.lease, q.ref)
      case Err(e) => Err(e)
      case Ok(r') =>
        var w := Writer(q.ns, q.ref, bref, !share, q.digest, if share then |b.blobs[q.digest]| else q.size);
        var b' := if share || bref in b.ingests then b else b.(ingests := b.ingests[bref := []]);
        Ok(Opened(db[q.ns := r'], b', Some(w)))
  }

  /** Labels with an empty value are not written. */
  function WrittenLabels(labels: Labels): Labels {
    map k | k in labels && labels[k] != "" :: labels[k]
  }

  /** The backend side of commit: the digest and size it settles on, and the backend it leaves. */
  function BackendCommit(cfg: Config, b: Backend, w: Writer, size: int,
                         expected: Digest): Result<(Digest, int, Backend)> {
    if !w.unshared then
      if size != 0 && size != w.size then Err("failed size validation")
      else if expected != "" && expected != w.digest then Err("unexpected digest")
      else Ok((w.digest, w.size, b))
    else if w.bref !in b.ingests then Err("ingest not found")
    else
      var data := b.ingests[w.bref];
      var d := cfg.hash(data);
      if size != 0 && size != |data| then Err("failed size validation")
      else if expected != "" && expected != d then Err("unexpected digest")
      else
        Ok((d, |data|, Backend(if d in b.blobs then b.blobs else b.blobs[d := data], b.ingests - {w.bref})))
  }

  /** The rest of Commit, inside the same transaction. A blob that exists already is kept as it is. */
  function CommitRecord(db: Database, w: Writer, lease: Option<string>, d: Digest, size: int,
                        labels: Labels): Result<Database> {
    var r := Get(db, w.ns);
    var blobs := if d in r.blobs then r.blobs else r.blobs[d := Blob(size, WrittenLabels(labels))];
    match AddContentLease(RemoveIngestLease(r.(blobs := blobs, ingests := r.ingests - {w.ref}), lease, w.ref), lease, d)
    case Ok(r') => Ok(db[w.ns := r'])
    case Err(e) => Err(e)
  }

  /** Err carries no backend: CommitTx's caller keeps BackendCommit's backend even when the record fails. */
  function CommitTx(cfg: Config, db: Database, b: Backend, w: Writer, q: Request): (Result<Database>, Backend)
    requires q.Commit?
  {
    if !ValidLabels(q.labels) then (Err("label too long"), b) else
      match BackendCommit(cfg, b, w, q.size, q.expected)
      case Err(e) => (Err(e), b)
      case Ok((d, size, b')) => (CommitRecord(db, w, q.lease, d, size, q.labels), b')
  }

  function DeleteTx(db: Database, q: Request): Result<Database>
    requires q.Delete?
  {
    var r := Get(db, q.ns);
    if q.digest !in r.blobs then Err("not found")
    else Ok(db[q.ns := RemoveContentLease(r.(blobs := r.blobs - {q.digest}), q.lease, q.digest)])
  }

  function AbortTx(db: Database, b: Backend, q: Request): Result<(Database, Backend)>
    requires q.Abort?
  {
    var r := Get(db, q.ns);
    if q.ref !in r.ingests || r.ingests[q.ref].bref == "" then Err("not found")
    else
      var i := r.ingests[q.ref];
      Ok((db[q.ns := RemoveIngestLease(r.(ingests := r.ingests - {q.ref}), q.lease, q.ref)],
          if i.expected == "" then b.(ingests := b.ingests - {i.bref}) else b))
  }

  function UpdateTx(db: Database, q: Request): Result<Database>
    requires q.Update?
  {
    var r := Get(db, q.ns);
    if q.digest !in r.blobs then Err("not found")
    else if !ValidLabels(q.labels) then Err("label too long")
    else Ok(db[q.ns := r.(blobs := r.blobs[q.digest := r.blobs[q.digest].(labels := WrittenLabels(q.labels))])])
  }
}
