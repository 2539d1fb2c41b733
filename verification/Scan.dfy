/**
 The mark phase as the code runs it: scanRoots fills the roots, back references
 and conditionals record by record, references looks up one node, and getMarked
 hands both to the tricolor walk.
 */
module Scan {
  import opened Bytes
  import opened Records
  import opened LabelRefs
  import opened Reachability
  import opened Tricolor
  import opened MarkSpec
  import opened CollectorLaws

  /** Everything said about one conditionally referenced node. */
  datatype Conditional = Conditional(values: seq<int>, references: seq<(Node, Test)>)

  ghost predicate Lists(m: map<Node, seq<Node>>, n: Node, ref: Node) {
    n in m && ref in m[n]
  }

  function LearnedFrom(self: Node, calls: seq<Call>): set<Fact> {
    set c | c in calls :: Learned(self, c)
  }

  lemma LearnedNext(self: Node, calls: seq<Call>, i: nat)
    requires i < |calls|
    ensures LearnedFrom(self, calls[..i + 1]) == LearnedFrom(self, calls[..i]) + {Learned(self, calls[i])}
  {
    hide Learned;
    assert calls[..i + 1] == calls[..i] + [calls[i]];
  }

  /** The state of one scan. `log` is what the records read so far say. */
  class Scanner {
    var roots: seq<Node>
    var backRefs: map<Node, seq<Node>>
    var conditionals: map<Node, Conditional>
    ghost var log: set<Fact>

    ghost predicate Valid()
      reads this
    {
      && (forall n :: n in roots <==> Root(n) in log)
      && (forall n, ref :: Lists(backRefs, n, ref) <==> Back(n, ref) in log)
      && (forall n, ref, t :: (ref in conditionals && (n, t) in conditionals[ref].references) <==>
          Cond(n, ref, t) in log)
      && (forall n, v :: (n in conditionals && v in conditionals[n].values) <==> Value(n, v) in log)
    }

    constructor ()
      ensures Valid() && log == {}
    {
      roots, backRefs, conditionals, log := [], map[], map[], {};
    }

    method SendRoot(n: Node)
      requires Valid()
      modifies this
      ensures Valid() && log == old(log) + {Root(n)}
    {
      roots := roots + [n];
      log := log + {Root(n)};
    }

    method AddBackRef(n: Node, ref: Node)
      modifies this`backRefs
      ensures forall x, y :: Lists(backRefs, x, y) <==> old(Lists(backRefs, x, y)) || (x == n && y == ref)
    {
      if n !in backRefs {
        backRefs := backRefs[n := [ref]];
      } else {
        backRefs := backRefs[n := backRefs[n] + [ref]];
      }
    }

    method AddCond(n: Node, ref: Node, test: Test)
      requires Valid()
      modifies this
      ensures Valid() && log == old(log) + {Cond(n, ref, test)}
    {
      var c := if ref in conditionals then conditionals[ref] else Conditional([], []);
      conditionals := conditionals[ref := c.(references := c.references + [(n, test)])];
      log := log + {Cond(n, ref, test)};
    }

    method AddValue(n: Node, v: int)
      requires Valid()
      modifies this
      ensures Valid() && log == old(log) + {Value(n, v)}
    {
      var c := if n in conditionals then conditionals[n] else Conditional([], []);
      conditionals := conditionals[n := c.(values := c.values + [v])];
      log := log + {Value(n, v)};
    }

    method Learn(f: Fact)
      requires Valid()
      modifies this
      ensures Valid() && log == old(log) + {f}
    {
      match f
      case Root(n) => SendRoot(n);
      case Back(n, ref) =>
        AddBackRef(n, ref);
        log := log + {f};
      case Cond(n, ref, test) => AddCond(n, ref, test);
      case Value(n, v) => AddValue(n, v);
    }

    method LearnAll(fs: set<Fact>)
      requires Valid()
      modifies this
      ensures Valid() && log == old(log) + fs
    {
      var todo := fs;
      while todo != {}
        invariant todo <= fs && Valid() && log == old(log) + (fs - todo)
      {
        var f :| f in todo;
        Learn(f);
        todo := todo - {f};
      }
    }

    /** Runs the label handlers on one record and takes down what they call. */
    method ScanLabels(self: Node, labels: Labels, cb: Callbacks, env: Env)
      requires Valid()
      modifies this
      ensures Valid() && log == old(log) + LabelFacts(self, labels, cb, env)
    {
      hide CallSet;
      hide Learned;
      hide Valid;
      var keys := OpenCursor(labels);
      var sent := SendLabelRefs(self.ns, keys, labels, cb, env.handlers, env);
      CallsAreCallSet(self.ns, keys, labels, cb, env);
      for i := 0 to |sent|
        invariant Valid() && log == old(log) + LearnedFrom(self, sent[..i])
      {
        LearnedNext(self, sent, i);
        Learn(Learned(self, sent[i]));
      }
      assert sent[..|sent|] == sent;
    }

    /** One record; false when an ingest's expiry cannot be decoded. */
    method ScanEntry(ns: string, e: Entry, env: Env) returns (ok: bool)
      requires Valid()
      modifies this
      ensures Valid()
      ensures ok <==> !(e.IngestEntry? && e.ingest.expireAt == Undecodable)
      ensures ok ==> log == old(log) + EntryFacts(ns, e, env)
    {
      var self := Self(ns, e);
      ok := true;
      match e
      case LeaseEntry(_, l) =>
        if !Expired(l.labels, env) {
          SendRoot(self);
          LearnAll(RootFacts(Leased(ns, l)));
        }
      case ImageEntry(_, i) =>
        if Expired(i.labels, env) {
          ScanLabels(self, i.labels, CB_BREF_COND, env);
        } else {
          SendRoot(self);
          ScanLabels(self, i.labels, CB_COND, env);
        }
      case IngestEntry(_, i) =>
        if i.expireAt == Undecodable {
          ok := false;
        } else if i.expireAt.At? && env.now <= i.expireAt.time {
          SendRoot(self);
        }
      case BlobEntry(_, b) => ScanLabels(self, b.labels, CB_BREF_ROOT_COND, env);
      case ContainerEntry(_, c) =>
        SendRoot(self);
        ScanLabels(self, c.labels, CB_BREF, env);
      case SnapshotEntry(_, _, s) => ScanLabels(self, s.labels, CB_BREF_ROOT_VALUE, env);
      case SandboxEntry(_, s) => ScanLabels(self, s.labels, CB_FN, env);
    }

    /** All the records of a namespace, in whatever order. */
    method ScanNamespace(ns: string, r: Namespace, env: Env) returns (ok: bool)
      requires Valid()
      modifies this
      ensures Valid()
      ensures ok <==> forall k :: k in r.ingests ==> r.ingests[k].expireAt != Undecodable
      ensures ok ==> forall f :: f in log <==> f in old(log) || exists e :: Has(r, e) && f in EntryFacts(ns, e, env)
    {
      hide EntryFacts;
      var todo := Entries(r);
      EntriesHas(r);
      while todo != {}
        invariant todo <= Entries(r) && Valid()
        invariant forall e :: e in Entries(r) - todo ==> !(e.IngestEntry? && e.ingest.expireAt == Undecodable)
        invariant forall f :: f in log <==>
          f in old(log) || exists e :: e in Entries(r) - todo && f in EntryFacts(ns, e, env)
      {
        var e :| e in todo;
        ok := ScanEntry(ns, e, env);
        if !ok {
          assert Has(r, e);
          return;
        }
        todo := todo - {e};
      }
      forall k | k in r.ingests ensures r.ingests[k].expireAt != Undecodable {
        assert Has(r, IngestEntry(k, r.ingests[k]));
      }
      ok := true;
    }

    /** scanRoots up to the evaluation of conditions. */
    method ScanRoots(db: Database, env: Env) returns (ok: bool)
      requires Valid() && log == {}
      modifies this
      ensures Valid()
      ensures ok <==> Scannable(db)
      ensures ok ==> forall f :: f in log <==> Says(db, env, f)
    {
      hide EntryFacts;
      hide Valid;
      var todo := db.Keys;
      while todo != {}
        invariant todo <= db.Keys && Valid()
        invariant forall ns, k :: ns in db.Keys - todo && k in db[ns].ingests ==>
          db[ns].ingests[k].expireAt != Undecodable
        invariant forall f :: f in log <==>
          exists ns, e :: ns in db.Keys - todo && Has(db[ns], e) && f in EntryFacts(ns, e, env)
      {
        var ns :| ns in todo;
        ok := ScanNamespace(ns, db[ns], env);
        if !ok {
          return;
        }
        todo := todo - {ns};
      }
      ok := true;
    }

    /** Tests every conditional reference to one node against that node's values. */
    method Evaluate(ref: Node, c: Conditional, now: int)
      modifies this`backRefs
      ensures forall x, y :: Lists(backRefs, x, y) <==>
        old(Lists(backRefs, x, y)) || (y == ref && exists t, v ::
          (x, t) in c.references && v in c.values && Holds(t, v, now))
    {
      for i := 0 to |c.references|
        invariant forall x, y :: Lists(backRefs, x, y) <==>
          old(Lists(backRefs, x, y)) || (y == ref && exists t, v ::
            (x, t) in c.references[..i] && v in c.values && Holds(t, v, now))
      {
        var (n, test) := c.references[i];
        label outer:
        for j := 0 to |c.values|
          invariant forall x, y :: Lists(backRefs, x, y) <==>
            old@outer(Lists(backRefs, x, y)) || (y == ref && x == n && exists v ::
              v in c.values[..j] && Holds(test, v, now))
        {
          assert c.values[..j + 1] == c.values[..j] + [c.values[j]];
          if Holds(test, c.values[j], now) {
            AddBackRef(n, ref);
          }
        }
        assert c.values[..|c.values|] == c.values;
        assert c.references[..i + 1] == c.references[..i] + [c.references[i]];
      }
      assert c.references[..|c.references|] == c.references;
    }

    /** The last loop of scanRoots: conditions that hold become back references. */
    method EvaluateConditions(now: int)
      requires Valid()
      modifies this`backRefs
      ensures forall x, y :: Lists(backRefs, x, y) <==>
        Back(x, y) in log || exists t, v :: Cond(x, y, t) in log && Value(y, v) in log && Holds(t, v, now)
    {
      var todo := conditionals.Keys;
      while todo != {}
        invariant todo <= conditionals.Keys
        invariant forall x, y :: Lists(backRefs, x, y) <==>
          Back(x, y) in log || (y in conditionals.Keys - todo && Satisfied(conditionals[y], x, now))
      {
        var ref :| ref in todo;
        Evaluate(ref, conditionals[ref], now);
        todo := todo - {ref};
      }
    }
  }

  ghost predicate Satisfied(c: Conditional, x: Node, now: int) {
    exists t, v :: (x, t) in c.references && v in c.values && Holds(t, v, now)
  }

  function Entries(r: Namespace): set<Entry> {
    (set k | k in r.leases :: LeaseEntry(k, r.leases[k])) +
    (set k | k in r.images :: ImageEntry(k, r.images[k])) +
    (set k | k in r.ingests :: IngestEntry(k, r.ingests[k])) +
    (set k | k in r.blobs :: BlobEntry(k, r.blobs[k])) +
    (set k | k in r.containers :: ContainerEntry(k, r.containers[k])) +
    (set k | k in r.snapshots :: SnapshotEntry(k.0, k.1, r.snapshots[k])) +
    (set k | k in r.sandboxes :: SandboxEntry(k, r.sandboxes[k]))
  }

  lemma EntriesHas(r: Namespace)
    ensures forall e :: e in Entries(r) <==> Has(r, e)
  {
    forall e ensures e in Entries(r) <==> Has(r, e) {
      if e.SnapshotEntry? && Has(r, e) {
        assert (e.ss, e.name) in r.snapshots;
      }
    }
  }

  // ---- references and getMarked ----

  /** What references sends for a node, as a set; a snapshot key that cannot be cut is an error. */
  function References(db: Database, backRefs: map<Node, seq<Node>>, env: Env, n: Node): Result<set<Node>> {
    if (n.typ == SNAPSHOT || n.typ == SNAPSHOT_FLAT) && '/' !in n.key then Err("invalid snapshot gc key") else
      Ok((if n in backRefs then set m | m in backRefs[n] else {}) + RecordTargets(db, env, n))
  }

  /** The label part of references, with its cursor. */
  method SendTargets(ns: string, labels: Labels, env: Env) returns (sent: seq<Node>)
    ensures forall m :: m in sent <==> m in LabelTargets(ns, labels, env)
  {
    var keys := OpenCursor(labels);
    var calls := SendLabelRefs(ns, keys, labels, CB_FN, env.handlers, env);
    CallsAreCallSet(ns, keys, labels, CB_FN, env);
    sent := [];
    for i := 0 to |calls|
      invariant forall m :: m in sent <==> CallRef(m) in calls[..i]
    {
      assert calls[..i + 1] == calls[..i] + [calls[i]];
      if calls[i].CallRef? {
        sent := sent + [calls[i].n];
      }
    }
    assert calls[..|calls|] == calls;
  }

  /** references: back references first, then what the node's own record names. */
  method SendReferences(db: Database, backRefs: map<Node, seq<Node>>, env: Env, n: Node) returns (r: Result<seq<Node>>)
    ensures r.Err? <==> References(db, backRefs, env, n).Err?
    ensures r.Ok? ==> forall m :: m in r.value <==> m in References(db, backRefs, env, n).value
  {
    hide LabelTargets;
    var sent := if n in backRefs then backRefs[n] else [];
    if (n.typ == SNAPSHOT || n.typ == SNAPSHOT_FLAT) && '/' !in n.key {
      return Err("invalid snapshot gc key");
    }
    match RecordAt(db, n)
    case None => return Ok(sent);
    case Some(e) =>
      var more: seq<Node> := [];
      match e {
        case BlobEntry(_, b) => more := SendTargets(n.ns, b.labels, env);
        case SnapshotEntry(ss, _, s) =>
          if s.parent != "" {
            sent := sent + [Node(n.typ, n.ns, SnapKey(ss, s.parent))];
          }
          if n.typ != SNAPSHOT_FLAT {
            more := SendTargets(n.ns, s.labels, env);
          }
        case ImageEntry(_, i) =>
          if i.target.Some? {
            sent := sent + [Node(if n.typ == IMAGE_FLAT then CONTENT_FLAT else CONTENT, n.ns, i.target.value)];
          }
          if n.typ != IMAGE_FLAT {
            more := SendTargets(n.ns, i.labels, env);
          }
        case IngestEntry(_, i) =>
          if i.expected != "" {
            sent := sent + [Node(CONTENT, n.ns, i.expected)];
          }
        case ContainerEntry(_, c) =>
          if c.snapshotter != "" {
            sent := sent + [Node(SNAPSHOT, n.ns, SnapKey(c.snapshotter, c.snapshotKey))];
          }
          more := SendTargets(n.ns, c.labels, env);
        case LeaseEntry(_, _) =>
        case SandboxEntry(_, _) =>
      }
      return Ok(sent + more);
  }

  function Refs(db: Database, backRefs: map<Node, seq<Node>>, env: Env): Node -> Result<set<Node>> {
    n => References(db, backRefs, env, n)
  }

  /** The scan has found exactly the roots and back references that the records imply. */
  ghost predicate Scanned(db: Database, env: Env, roots: seq<Node>, backRefs: map<Node, seq<Node>>) {
    && (forall n :: n in roots <==> n in Roots(db, env))
    && (forall n, m :: Lists(backRefs, n, m) <==> BackEdge(db, env, n, m))
  }

  lemma TargetsAreEdges(db: Database, env: Env, backRefs: map<Node, seq<Node>>, n: Node, m: Node)
    requires forall x, y :: Lists(backRefs, x, y) <==> BackEdge(db, env, x, y)
    ensures m in Targets(Refs(db, backRefs, env))(n) ==> Edge(db, env, n, m)
    ensures WellNamed(n.ns, n) && Edge(db, env, n, m) ==> m in Targets(Refs(db, backRefs, env))(n)
    ensures WellNamed(n.ns, n) ==> References(db, backRefs, env, n).Ok?
  {
    hide BackEdge;
    hide RecordTargets;
    assert Lists(backRefs, n, m) <==> BackEdge(db, env, n, m);
  }

  ghost predicate Walked(db: Database, env: Env, roots: seq<Node>, backRefs: map<Node, seq<Node>>, n: Node) {
    Reach(SetOf(roots), Targets(Refs(db, backRefs, env)), n)
  }

  /** From a node that is live and walked, both relations step to the same nodes. */
  lemma StepBoth(db: Database, env: Env, roots: seq<Node>, backRefs: map<Node, seq<Node>>, n: Node, m: Node)
    requires Scanned(db, env, roots, backRefs)
    requires Live(db, env, n) && Walked(db, env, roots, backRefs, n)
    requires m in Targets(Refs(db, backRefs, env))(n) || Edge(db, env, n, m)
    ensures Live(db, env, m) && Walked(db, env, roots, backRefs, m)
  {
    hide Live;
    hide Edge;
    hide BackEdge;
    hide Targets;
    hide Reach;
    LiveShape(db, env, n);
    TargetsAreEdges(db, env, backRefs, n, m);
    EdgeLive(db, env, n, m);
    StepReach(SetOf(roots), Targets(Refs(db, backRefs, env)), n, m);
  }

  /** The walk over the scan's answers reaches what is live, and meets no error. */
  lemma WalkReachesLive(db: Database, env: Env, roots: seq<Node>, backRefs: map<Node, seq<Node>>, n: Node)
    requires Scanned(db, env, roots, backRefs)
    ensures Walked(db, env, roots, backRefs, n) <==> Live(db, env, n)
    ensures Live(db, env, n) ==> References(db, backRefs, env, n).Ok?
  {
    hide Edge;
    hide Targets;
    hide References;
    hide Says;
    hide BackEdge;
    hide Reach;
    var refs := Targets(Refs(db, backRefs, env));
    assert SetOf(roots) == Roots(db, env);
    var both := iset x | Live(db, env, x) && Walked(db, env, roots, backRefs, x);
    forall x | x in SetOf(roots) ensures x in both {
      RootReach(Roots(db, env), Edges(db, env), x);
      RootReach(SetOf(roots), refs, x);
    }
    forall x, y | x in both && y in refs(x) ensures y in both {
      StepBoth(db, env, roots, backRefs, x, y);
    }
    forall x, y | x in both && y in Edges(db, env)(x) ensures y in both {
      StepBoth(db, env, roots, backRefs, x, y);
    }
    if Live(db, env, n) {
      ReachInduct(Roots(db, env), Edges(db, env), both, n);
      LiveShape(db, env, n);
      TargetsAreEdges(db, env, backRefs, n, n);
    }
    if Walked(db, env, roots, backRefs, n) {
      ReachInduct(SetOf(roots), refs, both, n);
    }
  }

  const TYPES: set<ResourceType> := {CONTENT, SNAPSHOT, SNAPSHOT_FLAT, IMAGE, IMAGE_FLAT, INGEST, CONTAINER}

  /** Every node a scan or a record names: the walk never leaves this set. */
  ghost function Universe(db: Database, env: Env, roots: seq<Node>, backRefs: map<Node, seq<Node>>): set<Node> {
    (set n | n in roots) +
    (set n, m | n in backRefs && m in backRefs[n] :: m) +
    (set ns, e, t, m | ns in db && e in Entries(db[ns]) && t in TYPES && m in EntryTargets(t, ns, e, env) :: m)
  }

  lemma UniverseClosed(db: Database, env: Env, roots: seq<Node>, backRefs: map<Node, seq<Node>>, n: Node, m: Node)
    requires m in Targets(Refs(db, backRefs, env))(n)
    ensures m in Universe(db, env, roots, backRefs)
  {
    hide EntryTargets;
    if m in RecordTargets(db, env, n) {
      var e := RecordAt(db, n).value;
      EntriesHas(db[n.ns]);
      assert Has(db[n.ns], e);
      assert n.typ in TYPES;
    } else {
      assert m in backRefs[n];
    }
  }

  /** getMarked: what it returns is what the database keeps; it fails only on an expiry it cannot decode. */
  method GetMarked(db: Database, env: Env) returns (r: Result<set<Node>>)
    ensures r.Ok? <==> Scannable(db)
    ensures r.Ok? ==> forall n :: n in r.value <==> Kept(db, env, n)
  {
    var s := new Scanner();
    var ok := s.ScanRoots(db, env);
    if !ok {
      return Err("cannot decode expiry");
    }
    s.EvaluateConditions(env.now);
    r := MarkScanned(db, env, s.roots, s.backRefs);
  }

  method MarkScanned(db: Database, env: Env, roots: seq<Node>, backRefs: map<Node, seq<Node>>)
    returns (r: Result<set<Node>>)
    requires Scanned(db, env, roots, backRefs)
    ensures r.Ok?
    ensures forall n :: n in r.value <==> Kept(db, env, n)
  {
    hide EntryTargets;
    hide Live;
    hide Scanned;
    hide Targets;
    hide Reach;
    var refs := Refs(db, backRefs, env);
    forall n, m | m in Targets(refs)(n) ensures m in Universe(db, env, roots, backRefs) {
      UniverseClosed(db, env, roots, backRefs, n, m);
    }
    forall n {
      WalkReachesLive(db, env, roots, backRefs, n);
    }
    r := Mark(roots, refs, Universe(db, env, roots, backRefs));
  }
}
