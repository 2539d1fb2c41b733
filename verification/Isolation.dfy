/**
 What keeps namespaces apart. Without the sharing policy and without a namespace
 labelled shareable, no writer ever stands for a blob it has not written, and each
 blob record of a namespace comes from a commit, by a writer of that namespace, of
 bytes written by a writer of that namespace.
 */
module Isolation {
  import opened Bytes
  import opened Records
  import opened MarkSpec
  import opened ContentTx
  import opened ContentProtocol

  /** No namespace is labelled shareable. */
  ghost predicate NothingShareable(db: Database) {
    forall n :: n in db && "containerd.io/namespace.shareable" in db[n].labels ==>
      db[n].labels["containerd.io/namespace.shareable"] != "true"
  }

  /** Namespace identifiers hold no '/'. */
  ghost predicate PlainNames(steps: seq<Step>) {
    forall i :: 0 <= i < |steps| && steps[i].Begin? && steps[i].request.OpenWriter? ==> '/' !in steps[i].request.ns
  }

  /** A run without the policy, in which nothing is ever labelled shareable. */
  ghost predicate IsolatedRun(cfg: Config, states: seq<State>, steps: seq<Step>) {
    && IsRun(cfg, states, steps) && Init(states[0]) && PlainNames(steps) && !cfg.shared
    && forall i :: 0 <= i < |states| ==> NothingShareable(states[i].db)
  }

  ghost predicate OwnIngests(db: Database) {
    forall ns, ref :: ref in Get(db, ns).ingests ==> Get(db, ns).ingests[ref].bref == ns + "/1/" + ref
  }

  ghost predicate OwnWriter(w: Writer) {
    w.unshared && '/' !in w.ns && w.bref == w.ns + "/1/" + w.ref
  }

  /** Every record and every writer has the backend ingest of its own namespace and ref, and no writer is shared. */
  ghost predicate Apart(s: State) {
    && OwnIngests(s.db)
    && (forall h :: h in s.writers ==> OwnWriter(s.writers[h]))
    && (forall t :: t in s.tasks && s.tasks[t].request.OpenWriter? ==> '/' !in s.tasks[t].request.ns)
  }

  /** The records of one namespace are replaced. */
  lemma PutOwn(db: Database, ns: string, r: Namespace)
    requires OwnIngests(db)
    requires forall ref :: ref in r.ingests ==> r.ingests[ref].bref == ns + "/1/" + ref
    ensures OwnIngests(db[ns := r])
  {
  }

  lemma NotShared(cfg: Config, db: Database, b: Backend, d: Digest, size: int)
    requires NothingShareable(db) && !cfg.shared
    ensures !CanShare(cfg, db, b, d, size)
  {
  }

  lemma OpenApart(cfg: Config, db: Database, b: Backend, q: Request)
    requires q.OpenWriter? && OpenWriterTx(cfg, db, b, q).Ok?
    requires OwnIngests(db) && NothingShareable(db) && !cfg.shared && '/' !in q.ns
    ensures var o := OpenWriterTx(cfg, db, b, q).value;
      && OwnIngests(o.db) && (o.writer.Some? ==> OwnWriter(o.writer.value) && o.writer.value.ns == q.ns)
      && Get(o.db, q.ns).blobs == Get(db, q.ns).blobs && o.db == db[q.ns := Get(o.db, q.ns)]
  {
    hide CanShare;
    hide NothingShareable;
    NotShared(cfg, db, b, q.digest, q.size);
    assert forall ref :: ref in Get(db, q.ns).ingests ==> Get(db, q.ns).ingests[ref].bref == q.ns + "/1/" + ref;
    PutOwn(db, q.ns, OpenWriterTx(cfg, db, b, q).value.db[q.ns]);
  }

  lemma FewerOwn(db: Database, db': Database)
    requires OwnIngests(db) && FewerIngests(db, db')
    ensures OwnIngests(db')
  {
    assert forall ns, ref :: ns in db' && ref in db'[ns].ingests ==> ref in Get(db, ns).ingests;
  }

  lemma CommitFewer(db: Database, w: Writer, lease: Option<string>, d: Digest, size: int, labels: Labels)
    requires CommitRecord(db, w, lease, d, size, labels).Ok?
    ensures FewerIngests(db, CommitRecord(db, w, lease, d, size, labels).value)
  {
    hide WrittenLabels;
  }

  lemma DeleteFewer(db: Database, q: Request)
    requires q.Delete? && DeleteTx(db, q).Ok?
    ensures FewerIngests(db, DeleteTx(db, q).value)
  {
  }

  lemma AbortFewer(db: Database, b: Backend, q: Request)
    requires q.Abort? && AbortTx(db, b, q).Ok?
    ensures FewerIngests(db, AbortTx(db, b, q).value.0)
  {
  }

  lemma UpdateFewer(db: Database, q: Request)
    requires q.Update? && UpdateTx(db, q).Ok?
    ensures FewerIngests(db, UpdateTx(db, q).value)
  {
    hide WrittenLabels;
  }

  lemma TxApart(cfg: Config, s: State, t: nat, h: nat)
    requires Apart(s) && NothingShareable(s.db) && !cfg.shared && t in s.tasks
    ensures Apart(TxState(cfg, s, t, h))
  {
    hide OwnIngests;
    hide OwnWriter;
    hide NothingShareable;
    hide FewerIngests;
    hide OpenWriterTx;
    hide BackendCommit;
    hide CommitRecord;
    hide DeleteTx;
    hide AbortTx;
    hide UpdateTx;
    var q, s' := s.tasks[t].request, TxState(cfg, s, t, h);
    match q
    case OpenWriter(_, _, _, _, _, _) =>
      if OpenWriterTx(cfg, s.db, s.backend, q).Ok? {
        OpenApart(cfg, s.db, s.backend, q);
      }
    case Commit(c, lease, size, expected, labels) =>
      if c in s.writers && BackendCommit(cfg, s.backend, s.writers[c], size, expected).Ok? {
        var (d, n, _) := BackendCommit(cfg, s.backend, s.writers[c], size, expected).value;
        if ValidLabels(labels) && CommitRecord(s.db, s.writers[c], lease, d, n, labels).Ok? {
          CommitFewer(s.db, s.writers[c], lease, d, n, labels);
          FewerOwn(s.db, s'.db);
        }
      }
    case Delete(_, _, _) =>
      if DeleteTx(s.db, q).Ok? {
        DeleteFewer(s.db, q);
        FewerOwn(s.db, s'.db);
      }
    case Abort(_, _, _) =>
      if AbortTx(s.db, s.backend, q).Ok? {
        AbortFewer(s.db, s.backend, q);
        FewerOwn(s.db, s'.db);
      }
    case Update(_, _, _) =>
      if UpdateTx(s.db, q).Ok? {
        UpdateFewer(s.db, q);
        FewerOwn(s.db, s'.db);
      }
  }

  lemma StepApart(cfg: Config, s: State, step: Step)
    requires Apart(s) && NothingShareable(s.db) && !cfg.shared && Next(cfg, s, step).Some?
    requires step.Begin? && step.request.OpenWriter? ==> '/' !in step.request.ns
    ensures Apart(Next(cfg, s, step).value)
  {
    hide OwnIngests;
    hide NothingShareable;
    hide FewerIngests;
    hide TxState;
    hide LeaseTx;
    hide KeptNodes;
    hide Filter;
    hide SameContent;
    hide ContentRemoved;
    hide SeenContent;
    hide SeenRefs;
    var s' := Next(cfg, s, step).value;
    if step.RunTx? {
      TxApart(cfg, s, step.task, step.handle);
    } else {
      OutsideLock(cfg, s, step);
      FewerOwn(s.db, s'.db);
    }
  }

  lemma EmptyOwn()
    ensures OwnIngests(map[])
  {
  }

  /** Over a whole run no writer is ever shared, and each has an ingest of its own. */
  lemma {:induction false} NoneShared(cfg: Config, states: seq<State>, steps: seq<Step>, k: nat)
    requires IsolatedRun(cfg, states, steps) && k < |states|
    ensures Apart(states[k])
    ensures forall h :: h in states[k].writers ==> states[k].writers[h].unshared
  {
    hide OwnIngests;
    hide NothingShareable;
    hide Next;
    if k == 0 {
      EmptyOwn();
    } else {
      NoneShared(cfg, states, steps, k - 1);
      assert Next(cfg, states[k - 1], steps[k - 1]) == Some(states[k]);
      StepApart(cfg, states[k - 1], steps[k - 1]);
    }
  }

  // ---- where a blob record comes from ----

  /** The step is a commit in `ns` of the bytes `data`, which hash to `d`. */
  ghost predicate Commits(cfg: Config, s: State, step: Step, ns: string, data: Data, d: Digest) {
    && step.RunTx? && step.task in s.tasks && s.tasks[step.task].request.Commit?
    && var h := s.tasks[step.task].request.handle;
       && h in s.writers && s.writers[h].ns == ns && s.writers[h].unshared
       && s.writers[h].bref in s.backend.ingests && s.backend.ingests[s.writers[h].bref] == data
       && cfg.hash(data) == d
  }

  /** The step writes, through a writer of `ns`, so that its ingest holds `data`. */
  ghost predicate Writes(s: State, step: Step, ns: string, data: Data) {
    step.BackendWrite? && step.handle in s.writers && s.writers[step.handle].ns == ns && step.data == data
  }

  lemma CommitBlobs(db: Database, w: Writer, lease: Option<string>, d: Digest, size: int, labels: Labels,
                    ns: string, x: Digest)
    requires CommitRecord(db, w, lease, d, size, labels).Ok?
    requires x in Get(CommitRecord(db, w, lease, d, size, labels).value, ns).blobs && x !in Get(db, ns).blobs
    ensures x == d && ns == w.ns
  {
    hide WrittenLabels;
  }

  lemma OtherBlobs(db: Database, b: Backend, q: Request, ns: string)
    ensures q.Delete? && DeleteTx(db, q).Ok? ==> Get(DeleteTx(db, q).value, ns).blobs.Keys <= Get(db, ns).blobs.Keys
    ensures q.Abort? && AbortTx(db, b, q).Ok? ==> Get(AbortTx(db, b, q).value.0, ns).blobs == Get(db, ns).blobs
    ensures q.Update? && UpdateTx(db, q).Ok? ==> Get(UpdateTx(db, q).value, ns).blobs.Keys <= Get(db, ns).blobs.Keys
  {
    hide WrittenLabels;
  }

  lemma NewTxRecord(cfg: Config, s: State, t: nat, h: nat, ns: string, d: Digest) returns (data: Data)
    requires Apart(s) && NothingShareable(s.db) && !cfg.shared && t in s.tasks
    requires d in Get(TxState(cfg, s, t, h).db, ns).blobs && d !in Get(s.db, ns).blobs
    ensures Commits(cfg, s, RunTx(t, h), ns, data, d)
  {
    hide OwnIngests;
    hide NothingShareable;
    hide OpenWriterTx;
    hide CommitRecord;
    hide DeleteTx;
    hide AbortTx;
    hide UpdateTx;
    var q := s.tasks[t].request;
    OtherBlobs(s.db, s.backend, q, ns);
    data := [];
    if q.OpenWriter? {
      OpenApart(cfg, s.db, s.backend, q);
    } else if q.Commit? {
      var w := s.writers[q.handle];
      data := s.backend.ingests[w.bref];
      CommitBlobs(s.db, w, q.lease, cfg.hash(data), |data|, q.labels, ns, d);
    }
  }

  /** Only a commit by a writer of the namespace adds a blob record to it. */
  lemma NewRecord(cfg: Config, s: State, step: Step, ns: string, d: Digest) returns (data: Data)
    requires Apart(s) && NothingShareable(s.db) && !cfg.shared && Next(cfg, s, step).Some?
    requires d in Get(Next(cfg, s, step).value.db, ns).blobs && d !in Get(s.db, ns).blobs
    ensures Commits(cfg, s, step, ns, data, d)
  {
    hide OwnIngests;
    hide NothingShareable;
    hide TxState;
    hide LeaseTx;
    hide KeptNodes;
    hide SameListings;
    hide ContentRemoved;
    hide SeenContent;
    hide SeenRefs;
    data := [];
    if step.RunTx? {
      data := NewTxRecord(cfg, s, step.task, step.handle, ns, d);
    } else if step.LeaseStep? {
      LeaseBlobs(s.db, step.op);
    }
  }

  lemma LeaseBlobs(db: Database, op: LeaseOp)
    requires LeaseTx(db, op).Ok?
    ensures forall ns :: Get(LeaseTx(db, op).value, ns).blobs == Get(db, ns).blobs
  {
    hide AddTo;
    hide RemoveFrom;
  }

  lemma OpenIngest(cfg: Config, db: Database, b: Backend, q: Request)
    requires q.OpenWriter? && OpenWriterTx(cfg, db, b, q).Ok?
    ensures var ingests := OpenWriterTx(cfg, db, b, q).value.backend.ingests;
      forall x :: x in ingests ==> ingests[x] == [] || (x in b.ingests && b.ingests[x] == ingests[x])
  {
    hide CanShare;
    hide BackendRef;
    hide AddContentLease;
    hide AddIngestLease;
  }

  lemma CommitIngest(cfg: Config, db: Database, b: Backend, w: Writer, q: Request)
    requires q.Commit?
    ensures var ingests := CommitTx(cfg, db, b, w, q).1.ingests;
      forall x :: x in ingests ==> x in b.ingests && b.ingests[x] == ingests[x]
  {
    hide ValidLabels;
    hide CommitRecord;
  }

  /** The transactions leave what a backend ingest holds, or start it empty, or drop it. */
  lemma TxIngest(cfg: Config, s: State, t: nat, h: nat, bref: string)
    requires t in s.tasks && bref in TxState(cfg, s, t, h).backend.ingests
    ensures var data := TxState(cfg, s, t, h).backend.ingests[bref];
      data == [] || (bref in s.backend.ingests && s.backend.ingests[bref] == data)
  {
    hide OpenWriterTx;
    hide CommitTx;
    hide RemoveIngestLease;
    hide DeleteTx;
    hide UpdateTx;
    var q := s.tasks[t].request;
    if q.OpenWriter? && OpenWriterTx(cfg, s.db, s.backend, q).Ok? {
      OpenIngest(cfg, s.db, s.backend, q);
    } else if q.Commit? && q.handle in s.writers {
      CommitIngest(cfg, s.db, s.backend, s.writers[q.handle], q);
    }
  }

  /** A backend ingest holds what it held before, or starts empty, or is written by a writer that has it. */
  lemma StepIngest(cfg: Config, s: State, step: Step, bref: string)
    requires Next(cfg, s, step).Some? && bref in Next(cfg, s, step).value.backend.ingests
    ensures var data := Next(cfg, s, step).value.backend.ingests[bref];
      || data == []
      || (bref in s.backend.ingests && s.backend.ingests[bref] == data)
      || (step.BackendWrite? && step.data == data && step.handle in s.writers && s.writers[step.handle].bref == bref)
  {
    hide TxState;
    hide LeaseTx;
    hide KeptNodes;
    hide Filter;
    hide SameContent;
    hide ContentRemoved;
    hide SeenContent;
    hide SeenRefs;
    if step.RunTx? {
      TxIngest(cfg, s, step.task, step.handle, bref);
    }
  }

  /** Two namespaces without '/' never share a backend ingest. */
  lemma {:induction false} PlainSplit(a: string, x: string, b: string, y: string)
    requires '/' !in a && '/' !in b && a + "/1/" + x == b + "/1/" + y
    ensures a == b && x == y
  {
    var s, t := a + "/1/" + x, b + "/1/" + y;
    assert s[|a|] == '/' && t[|b|] == '/';
    assert a == s[..|a|] && b == t[..|b|];
    assert |a| == |b|;
    assert x == s[|a| + 3..] && y == t[|b| + 3..];
  }

  /** What a writer's ingest holds was written by a writer of the same namespace, or is empty. */
  lemma {:induction false} BytesWritten(cfg: Config, states: seq<State>, steps: seq<Step>, k: nat, w: Writer)
    returns (i: nat)
    requires IsolatedRun(cfg, states, steps) && k < |states|
    requires OwnWriter(w) && w.bref in states[k].backend.ingests && states[k].backend.ingests[w.bref] != []
    ensures i < k && Writes(states[i], steps[i], w.ns, states[k].backend.ingests[w.bref])
  {
    hide NothingShareable;
    hide Next;
    hide OwnIngests;
    i := 0;
    if k > 0 {
      assert Next(cfg, states[k - 1], steps[k - 1]) == Some(states[k]);
      NoneShared(cfg, states, steps, k - 1);
      StepIngest(cfg, states[k - 1], steps[k - 1], w.bref);
      var before, data := states[k - 1].backend.ingests, states[k].backend.ingests[w.bref];
      if w.bref in before && before[w.bref] == data {
        i := BytesWritten(cfg, states, steps, k - 1, w);
      } else {
        var v := states[k - 1].writers[steps[k - 1].handle];
        PlainSplit(w.ns, w.ref, v.ns, v.ref);
        i := k - 1;
      }
    }
  }

  /**
   A blob recorded in a namespace was committed there, from bytes with that digest,
   and unless they are no bytes at all, a writer of that namespace had written them.
   */
  lemma {:induction false} RecordsAreWritten(cfg: Config, states: seq<State>, steps: seq<Step>, k: nat, ns: string,
                                             d: Digest) returns (j: nat, data: Data, i: nat)
    requires IsolatedRun(cfg, states, steps) && k < |states| && d in Get(states[k].db, ns).blobs
    ensures j < k && Commits(cfg, states[j], steps[j], ns, data, d)
    ensures data != [] ==> i < j && Writes(states[i], steps[i], ns, data)
  {
    hide NothingShareable;
    hide Next;
    hide OwnIngests;
    j, data, i := 0, [], 0;
    if k > 0 {
      assert Next(cfg, states[k - 1], steps[k - 1]) == Some(states[k]);
      if d in Get(states[k - 1].db, ns).blobs {
        j, data, i := RecordsAreWritten(cfg, states, steps, k - 1, ns, d);
      } else {
        NoneShared(cfg, states, steps, k - 1);
        j := k - 1;
        data := NewRecord(cfg, states[j], steps[j], ns, d);
        if data != [] {
          i := BytesWritten(cfg, states, steps, j, states[j].writers[states[j].tasks[steps[j].task].request.handle]);
        }
      }
    }
  }
}
