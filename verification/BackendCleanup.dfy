/**
 contentStore.garbageCollect: fills the seen-sets from the records, then deletes what the
 backend holds beyond them.
 */
module BackendCleanup {
  import opened Bytes
  import opened Records
  import opened ContentTx
  import opened ContentProtocol

  /** A backend without the blobs and ingests that no record names. */
  function Cleaned(db: Database, b: Backend): Backend {
    Backend(map d | d in b.blobs && d in SeenContent(db) :: b.blobs[d],
            map r | r in b.ingests && r in SeenRefs(db) :: b.ingests[r])
  }

  class ContentStore {
    var backend: Backend

    constructor (backend: Backend)
      ensures this.backend == backend
    {
      this.backend := backend;
    }

    /** The read transaction: every blob, every expected digest and every backend ref of every namespace. */
    method Scan(db: Database) returns (content: set<Digest>, refs: set<string>)
      ensures content == SeenContent(db) && refs == SeenRefs(db)
    {
      content, refs := {}, {};
      var todo := db.Keys;
      while todo != {}
        invariant todo <= db.Keys
        invariant forall d :: d in content <==> exists ns :: ns in db.Keys - todo && d in NamedContent(db[ns])
        invariant forall r :: r in refs <==> exists ns :: ns in db.Keys - todo && r in NamedRefs(db[ns])
      {
        var ns :| ns in todo;
        var c, r := ScanNamespace(db[ns]);
        content, refs, todo := content + c, refs + r, todo - {ns};
      }
    }

    method ScanNamespace(r: Namespace) returns (content: set<Digest>, refs: set<string>)
      ensures content == NamedContent(r) && refs == NamedRefs(r)
    {
      content, refs := r.blobs.Keys, {};
      var todo := r.ingests.Keys;
      while todo != {}
        invariant todo <= r.ingests.Keys
        invariant content == r.blobs.Keys +
          set ref | ref in r.ingests.Keys - todo && r.ingests[ref].expected != "" :: r.ingests[ref].expected
        invariant refs == set ref | ref in r.ingests.Keys - todo && r.ingests[ref].bref != "" :: r.ingests[ref].bref
      {
        var ref :| ref in todo;
        var i := r.ingests[ref];
        if i.expected != "" {
          content := content + {i.expected};
        }
        if i.bref != "" {
          refs := refs + {i.bref};
        }
        todo := todo - {ref};
      }
    }

    /** A whole cleanup, with no other holder of the lock. */
    method GarbageCollect(db: Database)
      modifies this
      ensures backend == Cleaned(db, old(backend))
    {
      var content, refs := Scan(db);
      var blobs := Retain(backend.blobs, content);
      var ingests := Retain(backend.ingests, refs);
      backend := Backend(blobs, ingests);
    }
  }

  /** Walks the keys and deletes those that were not seen. */
  method Retain(m: map<string, Data>, seen: set<string>) returns (r: map<string, Data>)
    ensures r == map k | k in m && k in seen :: m[k]
  {
    r := m;
    var todo := m.Keys;
    while todo != {}
      invariant todo <= m.Keys
      invariant r == map k | k in m && (k in todo || k in seen) :: m[k]
    {
      var k :| k in todo;
      if k !in seen {
        r := r - {k};
      }
      todo := todo - {k};
    }
  }

  /** A cleanup leaves every named blob and every named ingest, and no other. */
  lemma CleanedIsExact(db: Database, b: Backend, d: Digest, bref: string)
    ensures d in Cleaned(db, b).blobs <==> d in b.blobs && Needs(db, d)
    ensures d in Cleaned(db, b).blobs ==> Cleaned(db, b).blobs[d] == b.blobs[d]
    ensures bref in Cleaned(db, b).ingests <==> bref in b.ingests && RefNamed(db, bref)
    ensures bref in Cleaned(db, b).ingests ==> Cleaned(db, b).ingests[bref] == b.ingests[bref]
  {
    SeenIsNeeded(db, d);
    SeenRefsAreNamed(db, bref);
  }
}
