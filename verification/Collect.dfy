/** DB.GarbageCollect: the sweep, the dirty flags and the events of a collection. */
module Collect {
  import opened Bytes
  import opened Records
  import opened LabelRefs
  import opened MarkSpec
  import opened CollectorLaws
  import opened Scan

  datatype Event = SnapshotRemove(ns: string, ss: string, key: string) | ImageDelete(ns: string, name: string)

  /** What a successful collection leaves to do: events to publish, backends to clean. */
  datatype Outcome = Outcome(events: seq<Event>, snapshotters: set<string>, content: bool)

  /** scanAll visits every record but containers and sandboxes. */
  predicate Collectible(e: Entry) {
    !e.ContainerEntry? && !e.SandboxEntry?
  }

  function EventOf(ns: string, e: Entry): Option<Event> {
    match e
    case SnapshotEntry(ss, k, _) => Some(SnapshotRemove(ns, ss, k))
    case ImageEntry(k, _) => Some(ImageDelete(ns, k))
    case _ => None
  }

  /** remove: deletes one record's bucket. */
  function Without(r: Namespace, e: Entry): Namespace {
    match e
    case LeaseEntry(k, _) => r.(leases := r.leases - {k})
    case ImageEntry(k, _) => r.(images := r.images - {k})
    case IngestEntry(k, _) => r.(ingests := r.ingests - {k})
    case BlobEntry(k, _) => r.(blobs := r.blobs - {k})
    case SnapshotEntry(ss, k, _) => r.(snapshots := r.snapshots - {(ss, k)})
    case ContainerEntry(_, _) => r
    case SandboxEntry(_, _) => r
  }

  function AllEntries(db: Database): set<(string, Entry)> {
    set ns, e | ns in db && e in Entries(db[ns]) && Collectible(e) :: (ns, e)
  }

  /** What may still be in the store: what is kept, and what has not been visited yet. */
  ghost function Remaining(marked: set<Node>, todo: set<(string, Entry)>): iset<Node> {
    iset n | n in marked || exists p :: p in todo && Self(p.0, p.1) == n
  }

  lemma FilterAll(ns: string, r: Namespace, keep: iset<Node>)
    requires forall e :: Has(r, e) && Collectible(e) ==> Self(ns, e) in keep
    ensures Filter(ns, r, keep) == r
  {
    var r' := Filter(ns, r, keep);
    forall k | k in r.leases ensures k in r'.leases { assert Has(r, LeaseEntry(k, r.leases[k])); }
    assert r'.leases == r.leases;
    forall k | k in r.images ensures k in r'.images { assert Has(r, ImageEntry(k, r.images[k])); }
    assert r'.images == r.images;
    forall k | k in r.blobs ensures k in r'.blobs { assert Has(r, BlobEntry(k, r.blobs[k])); }
    assert r'.blobs == r.blobs;
    forall k | k in r.ingests ensures k in r'.ingests { assert Has(r, IngestEntry(k, r.ingests[k])); }
    assert r'.ingests == r.ingests;
    forall k | k in r.snapshots ensures k in r'.snapshots { assert Has(r, SnapshotEntry(k.0, k.1, r.snapshots[k])); }
    assert r'.snapshots == r.snapshots;
  }

  /** Deleting one record is filtering out its node. */
  lemma FilterStep(ns: string, r: Namespace, keep: iset<Node>, e: Entry)
    requires Has(r, e) && Collectible(e)
    ensures Without(Filter(ns, r, keep), e) == Filter(ns, r, keep - iset{Self(ns, e)})
  {
    hide Filter;
    FilterStepOthers(ns, r, keep, e);
    FilterStepOwn(ns, r, keep, e);
  }

  lemma FilterStepOwn(ns: string, r: Namespace, keep: iset<Node>, e: Entry)
    requires Has(r, e)
    ensures var a, b := Filter(ns, r, keep), Filter(ns, r, keep - iset{Self(ns, e)});
      match e
      case LeaseEntry(k, _) => a.leases - {k} == b.leases
      case ImageEntry(k, _) => a.images - {k} == b.images
      case BlobEntry(k, _) => a.blobs - {k} == b.blobs
      case IngestEntry(k, _) => a.ingests - {k} == b.ingests
      case SnapshotEntry(ss, k, _) => a.snapshots - {(ss, k)} == b.snapshots
      case _ => true
  {
    if e.SnapshotEntry? {
      forall x | x in r.snapshots && SnapKey(x.0, x.1) == SnapKey(e.ss, e.name) {
        SnapKeyInjective(x.0, x.1, e.ss, e.name);
      }
    }
  }

  lemma FilterStepOthers(ns: string, r: Namespace, keep: iset<Node>, e: Entry)
    requires Has(r, e) && Collectible(e)
    ensures var a, b := Filter(ns, r, keep), Filter(ns, r, keep - iset{Self(ns, e)});
      && (e.LeaseEntry? || a.leases == b.leases)
      && (e.ImageEntry? || a.images == b.images)
      && (e.BlobEntry? || a.blobs == b.blobs)
      && (e.IngestEntry? || a.ingests == b.ingests)
      && (e.SnapshotEntry? || a.snapshots == b.snapshots)
      && a.labels == b.labels && a.containers == b.containers && a.sandboxes == b.sandboxes
  {
  }

  /** A record that the collection removes. */
  ghost predicate Removed(db: Database, env: Env, ns: string, e: Entry) {
    ns in db && Has(db[ns], e) && !Has(Collected(db, env)[ns], e)
  }

  lemma GoneIsRemoved(db: Database, env: Env, marked: set<Node>, gone: set<(string, Entry)>, ns: string, e: Entry)
    requires forall n :: n in marked <==> Kept(db, env, n)
    requires forall p :: p in gone <==> p in AllEntries(db) && Self(p.0, p.1) !in marked
    ensures (ns, e) in gone <==> Removed(db, env, ns, e)
  {
    hide Kept;
    if ns in db {
      EntriesHas(db[ns]);
      CollectedHas(db, env, ns, e);
    }
  }

  /** Exactly one event for every removed snapshot and image. */
  ghost predicate EventsFor(events: seq<Event>, gone: set<(string, Entry)>) {
    && (forall v :: v in events <==> exists p :: p in gone && EventOf(p.0, p.1) == Some(v))
    && (forall i, j :: 0 <= i < j < |events| ==> events[i] != events[j])
  }

  ghost function DirtySnapshotters(gone: set<(string, Entry)>): set<string> {
    set p | p in gone && p.1.SnapshotEntry? && p.1.ss != "" :: p.1.ss
  }

  ghost predicate DirtyContent(gone: set<(string, Entry)>) {
    exists p :: p in gone && (p.1.BlobEntry? || p.1.IngestEntry?)
  }

  /** `db'` is `db` with only the records in `keep`. */
  ghost predicate SweptTo(db: Database, db': Database, keep: iset<Node>) {
    db'.Keys == db.Keys && forall ns :: ns in db ==> db'[ns] == Filter(ns, db[ns], keep)
  }

  lemma SweepStart(db: Database, marked: set<Node>)
    ensures SweptTo(db, db, Remaining(marked, AllEntries(db)))
    ensures EventsFor([], {}) && DirtySnapshotters({}) == {} && !DirtyContent({})
  {
    hide Filter;
    forall ns | ns in db ensures Filter(ns, db[ns], Remaining(marked, AllEntries(db))) == db[ns] {
      EntriesHas(db[ns]);
      forall e | Has(db[ns], e) && Collectible(e) ensures Self(ns, e) in Remaining(marked, AllEntries(db)) {
        assert (ns, e) in AllEntries(db);
      }
      FilterAll(ns, db[ns], Remaining(marked, AllEntries(db)));
    }
  }

  /** Two records never share a node. */
  lemma SelfInjective(db: Database, p: (string, Entry), q: (string, Entry))
    requires p in AllEntries(db) && q in AllEntries(db) && Self(p.0, p.1) == Self(q.0, q.1)
    ensures p == q
  {
    EntriesHas(db[p.0]);
    if p.1.SnapshotEntry? {
      SnapKeyInjective(p.1.ss, p.1.name, q.1.ss, q.1.name);
    }
  }

  lemma RemainingStep(db: Database, marked: set<Node>, todo: set<(string, Entry)>, p: (string, Entry))
    requires p in todo && todo <= AllEntries(db)
    ensures var all, rest := Remaining(marked, todo), Remaining(marked, todo - {p});
      rest == if Self(p.0, p.1) in marked then all else all - iset{Self(p.0, p.1)}
  {
    forall q | q in todo && Self(q.0, q.1) == Self(p.0, p.1) ensures q == p {
      SelfInjective(db, p, q);
    }
    forall n ensures n in Remaining(marked, todo) <==> n in Remaining(marked, todo - {p}) || n == Self(p.0, p.1) {
      if q :| q in todo && Self(q.0, q.1) == n {
        if q != p {
          assert q in todo - {p};
        }
      }
    }
  }

  lemma EntryIn(db: Database, ns: string, e: Entry)
    requires (ns, e) in AllEntries(db)
    ensures ns in db && Has(db[ns], e) && Collectible(e)
  {
    EntriesHas(db[ns]);
  }

  lemma OtherNamespace(ns': string, r: Namespace, keep: iset<Node>, ns: string, e: Entry)
    requires ns' != ns
    ensures Filter(ns', r, keep) == Filter(ns', r, keep - iset{Self(ns, e)})
  {
    hide Filter;
    FilterSame(ns', r, keep, keep - iset{Self(ns, e)});
  }

  lemma SweepStep(db: Database, db': Database, marked: set<Node>, todo: set<(string, Entry)>, ns: string, e: Entry)
    requires SweptTo(db, db', Remaining(marked, todo)) && (ns, e) in todo && todo <= AllEntries(db)
    requires Self(ns, e) !in marked
    ensures ns in db' && SweptTo(db, db'[ns := Without(db'[ns], e)], Remaining(marked, todo - {(ns, e)}))
  {
    hide Filter;
    hide Without;
    hide Remaining;
    hide AllEntries;
    var keep := Remaining(marked, todo);
    RemainingStep(db, marked, todo, (ns, e));
    EntryIn(db, ns, e);
    FilterStep(ns, db[ns], keep, e);
    forall ns' | ns' in db && ns' != ns
      ensures Filter(ns', db[ns'], keep) == Filter(ns', db[ns'], keep - iset{Self(ns, e)})
    {
      OtherNamespace(ns', db[ns'], keep, ns, e);
    }
  }

  class DB {
    var store: Database
    var dirty: nat
    var dirtySS: set<string>
    var dirtyCS: bool

    constructor (store: Database)
      ensures this.store == store && dirty == 0 && dirtySS == {} && !dirtyCS
    {
      this.store, dirty, dirtySS, dirtyCS := store, 0, {}, false;
    }

    /** rm: sets the dirty flag of the backend behind a record and deletes the record. */
    method Remove(ns: string, e: Entry)
      requires ns in store
      modifies this
      ensures store == old(store)[ns := Without(old(store[ns]), e)]
      ensures dirty == old(dirty)
      ensures dirtySS == old(dirtySS) + (if e.SnapshotEntry? && e.ss != "" then {e.ss} else {})
      ensures dirtyCS <==> old(dirtyCS) || e.BlobEntry? || e.IngestEntry?
    {
      if e.SnapshotEntry? && e.ss != "" {
        dirtySS := dirtySS + {e.ss};
      } else if e.BlobEntry? || e.IngestEntry? {
        dirtyCS := true;
      }
      store := store[ns := Without(store[ns], e)];
    }

    /** The write transaction: scanAll over the records, removing what is not marked. */
    method Sweep(marked: set<Node>) returns (events: seq<Event>, ghost gone: set<(string, Entry)>)
      modifies this
      ensures forall p :: p in gone <==> p in old(AllEntries(store)) && Self(p.0, p.1) !in marked
      ensures SweptTo(old(store), store, iset n | n in marked)
      ensures dirty == old(dirty)
      ensures dirtySS == old(dirtySS) + DirtySnapshotters(gone)
      ensures dirtyCS <==> old(dirtyCS) || DirtyContent(gone)
      ensures EventsFor(events, gone)
    {
      hide SweptTo;
      hide EventsFor;
      hide DirtySnapshotters;
      hide DirtyContent;
      hide AllEntries;
      ghost var db := store;
      var todo := AllEntries(store);
      events, gone := [], {};
      SweepStart(db, marked);
      while todo != {}
        invariant todo <= AllEntries(db)
        invariant forall p :: p in gone <==> p in AllEntries(db) - todo && Self(p.0, p.1) !in marked
        invariant SweptTo(db, store, Remaining(marked, todo))
        invariant dirty == old(dirty)
        invariant dirtySS == old(dirtySS) + DirtySnapshotters(gone)
        invariant dirtyCS <==> old(dirtyCS) || DirtyContent(gone)
        invariant EventsFor(events, gone)
      {
        var p :| p in todo;
        var (ns, e) := p;
        if Self(ns, e) !in marked {
          SweepStep(db, store, marked, todo, ns, e);
          EventsStep(db, events, gone, ns, e);
          DirtyStep(gone, ns, e);
          Remove(ns, e);
          if EventOf(ns, e).Some? {
            events := events + [EventOf(ns, e).value];
          }
          gone := gone + {p};
        }
        RemainingStep(db, marked, todo, p);
        todo := todo - {p};
      }
      assert Remaining(marked, {}) == iset n | n in marked;
    }

    /**
     One collection. It fails exactly when an ingest's expiry cannot be decoded,
     and then changes nothing. Otherwise it removes exactly the records that are
     not reachable, resets the dirty flags and schedules the backends that lost records.
     */
    method GarbageCollect(env: Env) returns (r: Result<Outcome>)
      modifies this
      ensures r.Ok? <==> Scannable(old(store))
      ensures r.Err? ==> unchanged(this)
      ensures r.Ok? ==> store == Collected(old(store), env) && dirty == 0 && dirtySS == {} && !dirtyCS
      ensures r.Ok? ==> forall ss :: ss in r.value.snapshotters <==>
        ss in old(dirtySS) || (ss != "" && exists ns, e ::
          Removed(old(store), env, ns, e) && e.SnapshotEntry? && e.ss == ss)
      ensures r.Ok? ==> (r.value.content <==>
        old(dirtyCS) || exists ns, e :: Removed(old(store), env, ns, e) && (e.BlobEntry? || e.IngestEntry?))
      ensures r.Ok? ==> forall v :: v in r.value.events <==>
        exists ns, e :: Removed(old(store), env, ns, e) && EventOf(ns, e) == Some(v)
      ensures r.Ok? ==> forall ns, name :: ImageDelete(ns, name) in r.value.events <==>
        ns in old(store) && name in old(store)[ns].images && !(ns in store && name in store[ns].images)
      ensures r.Ok? ==> forall ns, ss: Snapshotter, key :: SnapshotRemove(ns, ss, key) in r.value.events <==>
        ns in old(store) && (ss, key) in old(store)[ns].snapshots && !(ns in store && (ss, key) in store[ns].snapshots)
      ensures r.Ok? ==> forall i, j :: 0 <= i < j < |r.value.events| ==> r.value.events[i] != r.value.events[j]
    {
      hide Kept;
      hide Removed;
      hide Filter;
      ghost var db := store;
      var marked := GetMarked(store, env);
      if marked.Err? {
        return Err(marked.error);
      }
      var events, gone := Sweep(marked.value);
      assert KeptNodes(db, env) == iset n | n in marked.value;
      forall ns, e ensures (ns, e) in gone <==> Removed(db, env, ns, e) {
        GoneIsRemoved(db, env, marked.value, gone, ns, e);
      }
      forall ns, name
        ensures RemovedWith(db, env, ImageDelete(ns, name)) <==>
          ns in db && name in db[ns].images && name !in Collected(db, env)[ns].images
      {
        ImageEvents(db, env, ns, name);
      }
      forall ns, ss: Snapshotter, key
        ensures RemovedWith(db, env, SnapshotRemove(ns, ss, key)) <==>
          ns in db && (ss, key) in db[ns].snapshots && (ss, key) !in Collected(db, env)[ns].snapshots
      {
        SnapshotEvents(db, env, ns, ss, key);
      }
      r := Ok(Outcome(events, dirtySS, dirtyCS));
      dirty, dirtySS, dirtyCS := 0, {}, false;
    }
  }

  /** The collection removes a record with this event. */
  ghost predicate RemovedWith(db: Database, env: Env, v: Event) {
    exists ns, e :: Removed(db, env, ns, e) && EventOf(ns, e) == Some(v)
  }

  /** A collection leaves an image or a snapshot as it is or not at all. */
  lemma OneLeft(ns: string, r: Namespace, keep: iset<Node>)
    ensures var r' := Filter(ns, r, keep);
      && (forall k :: k in r'.images ==> k in r.images && r'.images[k] == r.images[k])
      && (forall k: (Snapshotter, string) :: k in r'.snapshots ==>
            k in r.snapshots && r'.snapshots[k] == r.snapshots[k])
  {
  }

  lemma EntryRemoved(db: Database, env: Env, ns: string, e: Entry)
    ensures e.ImageEntry? ==>
      (Removed(db, env, ns, e) <==> ns in db && Has(db[ns], e) && e.name !in Collected(db, env)[ns].images)
    ensures e.SnapshotEntry? ==>
      (Removed(db, env, ns, e) <==> ns in db && Has(db[ns], e) && (e.ss, e.name) !in Collected(db, env)[ns].snapshots)
  {
    hide Filter;
    hide KeptNodes;
    if ns in db {
      OneLeft(ns, db[ns], KeptNodes(db, env));
    }
  }

  lemma ImageEvents(db: Database, env: Env, ns: string, name: string)
    ensures RemovedWith(db, env, ImageDelete(ns, name)) <==>
      ns in db && name in db[ns].images && name !in Collected(db, env)[ns].images
  {
    hide Removed;
    hide Collected;
    if RemovedWith(db, env, ImageDelete(ns, name)) {
      var ns', e :| Removed(db, env, ns', e) && EventOf(ns', e) == Some(ImageDelete(ns, name));
      EntryRemoved(db, env, ns, e);
    }
    if ns in db && name in db[ns].images {
      EntryRemoved(db, env, ns, ImageEntry(name, db[ns].images[name]));
    }
  }

  lemma SnapshotEvents(db: Database, env: Env, ns: string, ss: Snapshotter, key: string)
    ensures RemovedWith(db, env, SnapshotRemove(ns, ss, key)) <==>
      ns in db && (ss, key) in db[ns].snapshots && (ss, key) !in Collected(db, env)[ns].snapshots
  {
    hide Removed;
    hide Collected;
    if RemovedWith(db, env, SnapshotRemove(ns, ss, key)) {
      var ns', e :| Removed(db, env, ns', e) && EventOf(ns', e) == Some(SnapshotRemove(ns, ss, key));
      EntryRemoved(db, env, ns, e);
    }
    if ns in db && (ss, key) in db[ns].snapshots {
      EntryRemoved(db, env, ns, SnapshotEntry(ss, key, db[ns].snapshots[(ss, key)]));
    }
  }

  lemma EventsStep(db: Database, events: seq<Event>, gone: set<(string, Entry)>, ns: string, e: Entry)
    requires EventsFor(events, gone) && gone <= AllEntries(db) && (ns, e) in AllEntries(db) && (ns, e) !in gone
    ensures EventsFor(if EventOf(ns, e).Some? then events + [EventOf(ns, e).value] else events, gone + {(ns, e)})
  {
    hide EventOf;
    hide AllEntries;
    var v := EventOf(ns, e);
    var more := if v.Some? then events + [v.value] else events;
    forall p | p in gone && v.Some? ensures EventOf(p.0, p.1) != v {
      EventDiffers(db, p, (ns, e));
    }
    forall x | x in more ensures exists p :: p in gone + {(ns, e)} && EventOf(p.0, p.1) == Some(x) {
      if x in events {
        var p :| p in gone && EventOf(p.0, p.1) == Some(x);
        assert p in gone + {(ns, e)};
      } else {
        var p := (ns, e);
        assert p in gone + {p};
      }
    }
  }

  /** Different records have different events. */
  lemma EventDiffers(db: Database, p: (string, Entry), q: (string, Entry))
    requires p in AllEntries(db) && q in AllEntries(db) && p != q && EventOf(q.0, q.1).Some?
    ensures EventOf(p.0, p.1) != EventOf(q.0, q.1)
  {
    EntriesHas(db[p.0]);
    EntriesHas(db[q.0]);
  }

  lemma DirtyStep(gone: set<(string, Entry)>, ns: string, e: Entry)
    ensures DirtySnapshotters(gone + {(ns, e)}) ==
      DirtySnapshotters(gone) + (if e.SnapshotEntry? && e.ss != "" then {e.ss} else {})
    ensures DirtyContent(gone + {(ns, e)}) <==> DirtyContent(gone) || e.BlobEntry? || e.IngestEntry?
  {
    var p := (ns, e);
    assert p in gone + {p};
    if DirtyContent(gone) {
      var q :| q in gone && (q.1.BlobEntry? || q.1.IngestEntry?);
      assert q in gone + {p};
    }
  }
}
