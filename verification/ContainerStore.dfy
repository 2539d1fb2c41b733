/**
 The container store: Create, Update with its field mask, Delete, and what holds over
 runs of them and of collections.
 */
module ContainerStore {
  import opened Bytes
  import opened Records
  import opened LabelRefs
  import opened MarkSpec
  import opened CollectorLaws
  import ContentTx

  /** validateContainer; which identifiers are valid is a parameter. */
  predicate ValidContainer(validId: string -> bool, id: string, c: Container) {
    && validId(id)
    && "" !in c.extensions
    && ValidLabels(c.labels)
    && c.runtime != ""
    && c.spec.Some?
    && (c.snapshotKey != "" ==> c.snapshotter != "")
  }

  /** writeContainer into a bucket that holds `before`: labels are replaced, extensions only added to. */
  function Written(before: map<string, string>, c: Container): Container {
    c.(labels := ContentTx.WrittenLabels(c.labels), extensions := before + c.extensions)
  }

  function Put(db: Database, ns: string, id: string, c: Container): Database {
    var r := ContentTx.Get(db, ns);
    db[ns := r.(containers := r.containers[id := c])]
  }

  predicate Exists(db: Database, ns: string, id: string) {
    ns in db && id in db[ns].containers
  }

  // ---- the field mask ----

  const DEFAULT_PATHS := ["labels", "spec", "extensions", "image", "snapshotkey"]

  function MaskOne(u: Container, c: Container, path: string): Result<Container> {
    if HasPrefix(path, "labels.") then
      var k := path[|"labels."|..];
      Ok(u.(labels := u.labels[k := LookUp(c.labels, k)]))
    else if HasPrefix(path, "extensions.") then
      var k := path[|"extensions."|..];
      Ok(u.(extensions := u.extensions[k := LookUp(c.extensions, k)]))
    else if path == "labels" then Ok(u.(labels := c.labels))
    else if path == "spec" then Ok(u.(spec := c.spec))
    else if path == "extensions" then Ok(u.(extensions := c.extensions))
    else if path == "image" then Ok(u.(image := c.image))
    else if path == "snapshotkey" then Ok(u.(snapshotKey := c.snapshotKey))
    else Err("cannot update field")
  }

  function Mask(u: Container, c: Container, paths: seq<string>): Result<Container> {
    if paths == [] then Ok(u) else
      match Mask(u, c, paths[..|paths| - 1])
      case Err(e) => Err(e)
      case Ok(m) => MaskOne(m, c, paths[|paths| - 1])
  }

  lemma {:induction false} MaskStops(u: Container, c: Container, paths: seq<string>, n: nat)
    requires n <= |paths| && Mask(u, c, paths[..n]).Err?
    ensures Mask(u, c, paths) == Mask(u, c, paths[..n])
    decreases |paths| - n
  {
    if n < |paths| {
      assert paths[..n + 1][..n] == paths[..n];
      MaskStops(u, c, paths, n + 1);
    } else {
      assert paths[..n] == paths;
    }
  }

  /** The fields that no update changes. */
  predicate Fixed(c: Container, c': Container) {
    && c.runtime == c'.runtime && c.snapshotter == c'.snapshotter
    && c.sandboxId == c'.sandboxId && c.createdAt == c'.createdAt
  }

  /** A field is taken over exactly when the mask names it; an entry of a map that the mask does not name stays. */
  lemma {:induction false} MaskIsExact(u: Container, c: Container, paths: seq<string>)
    requires Mask(u, c, paths).Ok?
    ensures var m := Mask(u, c, paths).value;
      && Fixed(u, m) && m.updatedAt == u.updatedAt
      && m.image == (if "image" in paths then c.image else u.image)
      && m.spec == (if "spec" in paths then c.spec else u.spec)
      && m.snapshotKey == (if "snapshotkey" in paths then c.snapshotKey else u.snapshotKey)
      && ("labels" !in paths ==> forall k :: k in u.labels && "labels." + k !in paths ==>
          k in m.labels && m.labels[k] == u.labels[k])
      && ("extensions" !in paths ==> forall k :: k in u.extensions && "extensions." + k !in paths ==>
          k in m.extensions && m.extensions[k] == u.extensions[k])
    decreases |paths|
  {
    if paths != [] {
      var n := |paths| - 1;
      var path := paths[n];
      assert paths == paths[..n] + [path];
      MaskIsExact(u, c, paths[..n]);
      MaskOneIsExact(Mask(u, c, paths[..n]).value, c, path);
    }
  }

  lemma MaskOneIsExact(u: Container, c: Container, path: string)
    requires MaskOne(u, c, path).Ok?
    ensures var m := MaskOne(u, c, path).value;
      && Fixed(u, m) && m.updatedAt == u.updatedAt
      && m.image == (if path == "image" then c.image else u.image)
      && m.spec == (if path == "spec" then c.spec else u.spec)
      && m.snapshotKey == (if path == "snapshotkey" then c.snapshotKey else u.snapshotKey)
      && (path != "labels" ==> forall k :: k in u.labels && "labels." + k != path ==>
          k in m.labels && m.labels[k] == u.labels[k])
      && (path != "extensions" ==> forall k :: k in u.extensions && "extensions." + k != path ==>
          k in m.extensions && m.extensions[k] == u.extensions[k])
  {
    if HasPrefix(path, "labels.") {
      assert path == "labels." + path[|"labels."|..] && path[0] == 'l';
    } else if HasPrefix(path, "extensions.") {
      assert path == "extensions." + path[|"extensions."|..] && path[0] == 'e';
    }
  }

  /** The mask names the whole map or the entry `k` of it. */
  predicate Named(paths: seq<string>, whole: string, k: string) {
    whole in paths || whole + "." + k in paths
  }

  /** The value of the entry `k` in the map that counts for it; a missing one counts as empty. */
  function Chosen(whole: string, paths: seq<string>, k: string, before: map<string, string>,
                  given: map<string, string>): string {
    LookUp(if Named(paths, whole, k) then given else before, k)
  }

  /** What one path makes of the entry `k` of a map. */
  predicate EntryTaken(whole: string, path: string, k: string, before: map<string, string>,
                       given: map<string, string>, after: map<string, string>) {
    && LookUp(after, k) ==
       LookUp(if path == whole || path == whole + "." + k then given else before, k)
    && (path == whole ==> (k in after <==> k in given))
    && (path == whole + "." + k ==> k in after)
    && (path != whole && path != whole + "." + k ==> (k in after <==> k in before))
  }

  lemma MaskOneEntry(u: Container, c: Container, path: string, k: string)
    requires MaskOne(u, c, path).Ok?
    ensures var m := MaskOne(u, c, path).value;
      && EntryTaken("labels", path, k, u.labels, c.labels, m.labels)
      && EntryTaken("extensions", path, k, u.extensions, c.extensions, m.extensions)
  {
    EntryPath("labels", k);
    EntryPath("extensions", k);
    if HasPrefix(path, "labels.") {
      assert path == "labels." + path[|"labels."|..] && path[0] == 'l';
    } else if HasPrefix(path, "extensions.") {
      assert path == "extensions." + path[|"extensions."|..] && path[0] == 'e';
    }
  }

  lemma EntryPath(whole: string, k: string)
    ensures whole + "." + k == (whole + ".") + k && HasPrefix(whole + "." + k, whole + ".")
    ensures (whole + "." + k)[|whole| + 1..] == k
    ensures |whole + "." + k| > |whole|
  {
  }

  /**
   An entry of the labels or of the extensions ends up as it is given exactly when
   the mask names it or the whole map, in whatever order; a missing one counts as
   empty. Naming the whole map leaves no other entries than those given or named.
   */
  lemma {:induction false} MaskEntriesExact(u: Container, c: Container, paths: seq<string>, k: string)
    requires Mask(u, c, paths).Ok?
    ensures var m := Mask(u, c, paths).value;
      && LookUp(m.labels, k) == Chosen("labels", paths, k, u.labels, c.labels)
      && LookUp(m.extensions, k) == Chosen("extensions", paths, k, u.extensions, c.extensions)
      && ("labels" in paths && "labels" + "." + k !in paths ==> (k in m.labels <==> k in c.labels))
      && ("extensions" in paths && "extensions" + "." + k !in paths ==> (k in m.extensions <==> k in c.extensions))
    decreases |paths|
  {
    hide MaskOne;
    hide LookUp;
    if paths != [] {
      var n := |paths| - 1;
      assert paths == paths[..n] + [paths[n]];
      MaskEntriesExact(u, c, paths[..n], k);
      MaskOneEntry(Mask(u, c, paths[..n]).value, c, paths[n], k);
    }
  }

  /** The mask names the entry `k` and does not name the whole map from there on. */
  ghost predicate NamedLast(whole: string, paths: seq<string>, k: string) {
    exists i :: 0 <= i < |paths| && paths[i] == whole + "." + k && whole !in paths[i..]
  }

  lemma NamedLastMore(whole: string, paths: seq<string>, path: string, k: string)
    ensures NamedLast(whole, paths + [path], k) <==>
      path == whole + "." + k || (path != whole && NamedLast(whole, paths, k))
  {
    var all := paths + [path];
    assert all[|paths|..] == [path];
    forall i | 0 <= i < |paths|
      ensures all[i] == paths[i] && (whole in all[i..] <==> whole in paths[i..] || path == whole)
    {
      assert all[i..] == paths[i..] + [path];
    }
    EntryPath(whole, k);
    if path == whole + "." + k {
      assert all[|paths|] == path && whole !in all[|paths|..];
    }
    if NamedLast(whole, paths, k) && path != whole {
      var i :| 0 <= i < |paths| && paths[i] == whole + "." + k && whole !in paths[i..];
      assert all[i] == whole + "." + k && whole !in all[i..];
    }
  }

  /** The masked map has an entry `k`: named after the whole map last was, or in the map that counts. */
  ghost predicate HasEntry(whole: string, paths: seq<string>, k: string, before: map<string, string>,
                           given: map<string, string>) {
    NamedLast(whole, paths, k) || k in (if whole in paths then given else before)
  }

  lemma HasEntryMore(whole: string, paths: seq<string>, path: string, k: string, before: map<string, string>,
                     given: map<string, string>, masked: map<string, string>, after: map<string, string>)
    requires k in masked <==> HasEntry(whole, paths, k, before, given)
    requires EntryTaken(whole, path, k, masked, given, after)
    ensures k in after <==> HasEntry(whole, paths + [path], k, before, given)
  {
    hide NamedLast;
    NamedLastMore(whole, paths, path, k);
    EntryPath(whole, k);
  }

  /** Which labels and extensions there are after the mask. */
  lemma {:induction false} MaskHasEntry(u: Container, c: Container, paths: seq<string>, k: string)
    requires Mask(u, c, paths).Ok?
    ensures var m := Mask(u, c, paths).value;
      && (k in m.labels <==> HasEntry("labels", paths, k, u.labels, c.labels))
      && (k in m.extensions <==> HasEntry("extensions", paths, k, u.extensions, c.extensions))
    decreases |paths|
  {
    hide MaskOne;
    hide EntryTaken;
    if paths == [] {
    } else {
      hide HasEntry;
      var n := |paths| - 1;
      assert paths == paths[..n] + [paths[n]];
      MaskHasEntry(u, c, paths[..n], k);
      var m := Mask(u, c, paths[..n]).value;
      MaskOneEntry(m, c, paths[n], k);
      var m' := MaskOne(m, c, paths[n]).value;
      HasEntryMore("labels", paths[..n], paths[n], k, u.labels, c.labels, m.labels, m'.labels);
      HasEntryMore("extensions", paths[..n], paths[n], k, u.extensions, c.extensions, m.extensions, m'.extensions);
    }
  }

  /** The paths that a mask may name. */
  predicate Known(path: string) {
    || path == "labels" || path == "spec" || path == "extensions" || path == "image" || path == "snapshotkey"
    || (|path| >= 7 && path[..7] == "labels.") || (|path| >= 11 && path[..11] == "extensions.")
  }

  lemma MaskOneKnown(u: Container, c: Container, path: string)
    ensures MaskOne(u, c, path).Ok? <==> Known(path)
  {
  }

  lemma {:induction false} MaskKnown(u: Container, c: Container, paths: seq<string>)
    ensures Mask(u, c, paths).Ok? <==> forall path :: path in paths ==> Known(path)
    decreases |paths|
  {
    hide Known;
    hide MaskOne;
    if paths != [] {
      var n := |paths| - 1;
      assert paths == paths[..n] + [paths[n]];
      MaskKnown(u, c, paths[..n]);
      if Mask(u, c, paths[..n]).Ok? {
        MaskOneKnown(Mask(u, c, paths[..n]).value, c, paths[n]);
      }
    }
  }

  // ---- Update, field by field ----

  /** What the update makes of `u` is valid. */
  ghost predicate Storable(validId: string -> bool, id: string, u: Container, c: Container, all: seq<string>) {
    && validId(id) && u.runtime != ""
    && (if "spec" in all then c.spec else u.spec).Some?
    && ((if "snapshotkey" in all then c.snapshotKey else u.snapshotKey) != "" ==> u.snapshotter != "")
    && !HasEntry("extensions", all, "", u.extensions, c.extensions)
    && LabelsFit(u, c, all)
  }

  ghost predicate LabelsFit(u: Container, c: Container, all: seq<string>) {
    forall k :: HasEntry("labels", all, k, u.labels, c.labels) ==>
      |k| + |Chosen("labels", all, k, u.labels, c.labels)| <= 4096
  }

  /** `m` is `u` with what the paths name taken from `c`. */
  ghost predicate TakenOver(u: Container, c: Container, all: seq<string>, m: Container) {
    && m.runtime == u.runtime && m.snapshotter == u.snapshotter
    && m.sandboxId == u.sandboxId && m.createdAt == u.createdAt
    && m.image == (if "image" in all then c.image else u.image)
    && m.spec == (if "spec" in all then c.spec else u.spec)
    && m.snapshotKey == (if "snapshotkey" in all then c.snapshotKey else u.snapshotKey)
    && (forall k :: LookUp(m.labels, k) == Chosen("labels", all, k, u.labels, c.labels))
    && (forall k :: LookUp(m.extensions, k) == Chosen("extensions", all, k, u.extensions, c.extensions))
    && (forall k :: k in m.extensions <==> HasEntry("extensions", all, k, u.extensions, c.extensions))
  }

  /** The stored extensions are those before, overlaid by those given back. */
  ghost predicate Overlaid(before: map<string, string>, returned: map<string, string>, got: map<string, string>) {
    && (forall k :: k in got <==> k in before || k in returned)
    && (forall k :: k in got ==> got[k] == if k in returned then returned[k] else before[k])
  }

  /** What Update asks of the paths, of the fields that it cannot change, and of the result. */
  ghost predicate Accepted(validId: string -> bool, id: string, u: Container, c: Container, paths: seq<string>) {
    var all := if paths == [] then DEFAULT_PATHS else paths;
    && (forall path :: path in all ==> Known(path))
    && (paths == [] ==> c.runtime == u.runtime && c.snapshotter == u.snapshotter)
    && Storable(validId, id, u, c, all)
  }

  /** The container that Update returns for the stored `u`, and the one that is stored then. */
  ghost predicate Replaced(u: Container, c: Container, paths: seq<string>, now: int, returned: Container,
                           got: Container) {
    && TakenOver(u, c, if paths == [] then DEFAULT_PATHS else paths, returned)
    && returned.updatedAt == now
    && (forall k :: k in returned.labels ==> returned.labels[k] != "")
    && got == returned.(extensions := got.extensions)
    && Overlaid(u.extensions, returned.extensions, got.extensions)
  }

  lemma MaskTakesOver(u: Container, c: Container, all: seq<string>)
    requires Mask(u, c, all).Ok?
    ensures TakenOver(u, c, all, Mask(u, c, all).value)
    ensures forall k :: k in Mask(u, c, all).value.labels <==> HasEntry("labels", all, k, u.labels, c.labels)
  {
    hide Mask;
    hide HasEntry;
    hide Chosen;
    hide LookUp;
    MaskIsExact(u, c, all);
    forall k
      ensures var m := Mask(u, c, all).value;
        && LookUp(m.labels, k) == Chosen("labels", all, k, u.labels, c.labels)
        && LookUp(m.extensions, k) == Chosen("extensions", all, k, u.extensions, c.extensions)
        && (k in m.labels <==> HasEntry("labels", all, k, u.labels, c.labels))
        && (k in m.extensions <==> HasEntry("extensions", all, k, u.extensions, c.extensions))
    {
      MaskEntriesExact(u, c, all, k);
      MaskHasEntry(u, c, all, k);
    }
  }

  lemma MaskStorable(validId: string -> bool, id: string, u: Container, c: Container, all: seq<string>)
    requires Mask(u, c, all).Ok?
    ensures ValidContainer(validId, id, Mask(u, c, all).value) <==> Storable(validId, id, u, c, all)
  {
    hide Mask;
    hide HasEntry;
    hide Chosen;
    hide LabelsFit;
    hide ValidLabels;
    MaskTakesOver(u, c, all);
    LabelsFitExact(u, c, all, Mask(u, c, all).value.labels);
  }

  lemma LabelsFitExact(u: Container, c: Container, all: seq<string>, labels: Labels)
    requires forall k :: LookUp(labels, k) == Chosen("labels", all, k, u.labels, c.labels)
    requires forall k :: k in labels <==> HasEntry("labels", all, k, u.labels, c.labels)
    ensures ValidLabels(labels) <==> LabelsFit(u, c, all)
  {
    hide HasEntry;
    hide Chosen;
    hide LookUp;
    forall k | k in labels
      ensures LookUp(labels, k) == labels[k]
    {
      LookUpHas(labels, k);
    }
  }

  lemma LookUpHas(labels: Labels, k: string)
    requires k in labels
    ensures LookUp(labels, k) == labels[k]
  {
  }

  lemma WrittenTakesOver(u: Container, c: Container, all: seq<string>, m: Container, now: int)
    requires TakenOver(u, c, all, m)
    ensures TakenOver(u, c, all, m.(labels := ContentTx.WrittenLabels(m.labels), updatedAt := now))
  {
    hide HasEntry;
    hide Chosen;
    assert forall k :: LookUp(ContentTx.WrittenLabels(m.labels), k) == LookUp(m.labels, k);
  }

  lemma AcceptedExact(validId: string -> bool, id: string, u: Container, c: Container, paths: seq<string>)
    ensures Accepted(validId, id, u, c, paths) <==>
      var t := Mask(u, c, if paths == [] then DEFAULT_PATHS else paths);
      && (paths == [] ==> c.runtime == u.runtime && c.snapshotter == u.snapshotter)
      && t.Ok? && ValidContainer(validId, id, t.value)
  {
    hide Mask;
    hide Known;
    hide Storable;
    hide ValidContainer;
    var all := if paths == [] then DEFAULT_PATHS else paths;
    MaskKnown(u, c, all);
    if Mask(u, c, all).Ok? {
      MaskStorable(validId, id, u, c, all);
    }
  }

  lemma ReplacedExact(u: Container, c: Container, paths: seq<string>, now: int, m: Container)
    requires Mask(u, c, if paths == [] then DEFAULT_PATHS else paths) == Ok(m)
    ensures var w := m.(updatedAt := now);
      Replaced(u, c, paths, now, w.(labels := ContentTx.WrittenLabels(w.labels)), Written(u.extensions, w))
  {
    hide Mask;
    hide TakenOver;
    var all := if paths == [] then DEFAULT_PATHS else paths;
    MaskTakesOver(u, c, all);
    WrittenTakesOver(u, c, all, m, now);
  }

  // ---- the transactions ----

  function CreateTx(validId: string -> bool, db: Database, ns: string, id: string, c: Container,
                    now: int): Result<(Database, Container)> {
    if !ValidContainer(validId, id, c) then Err("create container failed validation")
    else if Exists(db, ns, id) then Err("already exists")
    else
      var w := Written(map[], c.(createdAt := now, updatedAt := now));
      Ok((Put(db, ns, id, w), w))
  }

  /** The result is the database and the container that Update returns. */
  function UpdateTx(validId: string -> bool, db: Database, ns: string, id: string, c: Container, paths: seq<string>,
                    now: int): Result<(Database, Container)> {
    if id == "" then Err("must specify a container id")
    else if !Exists(db, ns, id) then Err("not found")
    else
      var u := db[ns].containers[id];
      if paths == [] && (u.snapshotter != c.snapshotter || u.runtime != c.runtime) then Err("field is immutable")
      else
        match Mask(u, c, if paths == [] then DEFAULT_PATHS else paths)
        case Err(e) => Err(e)
        case Ok(m) =>
          if !ValidContainer(validId, id, m) then Err("update failed validation")
          else
            var w := m.(updatedAt := now);
            Ok((Put(db, ns, id, Written(u.extensions, w)), w.(labels := ContentTx.WrittenLabels(w.labels))))
  }

  function DeleteTx(db: Database, ns: string, id: string): Result<Database> {
    if !Exists(db, ns, id) then Err("not found")
    else Ok(db[ns := db[ns].(containers := db[ns].containers - {id})])
  }

  /** containerStore over the database it updates. */
  class Store {
    const validId: string -> bool
    var db: Database
    var dirty: nat

    constructor (validId: string -> bool, db: Database)
      ensures this.validId == validId && this.db == db && dirty == 0
    {
      this.validId, this.db, dirty := validId, db, 0;
    }

    /** A valid new container is stored as given, less its empty labels, with both timestamps set. */
    method Create(ns: string, id: string, c: Container, now: int) returns (r: Result<Container>)
      modifies this
      ensures dirty == old(dirty) && OthersSame(old(db), db, ns, id)
      ensures r.Ok? <==>
        && !Exists(old(db), ns, id) && validId(id) && c.runtime != "" && c.spec.Some?
        && (c.snapshotKey != "" ==> c.snapshotter != "") && "" !in c.extensions
        && forall k :: k in c.labels ==> |k| + |c.labels[k]| <= 4096
      ensures r.Err? ==> db == old(db)
      ensures r.Ok? ==> Exists(db, ns, id) && db[ns].containers[id] == r.value
      ensures r.Ok? ==> r.value.createdAt == r.value.updatedAt == now && SameFields(r.value, c)
      ensures r.Ok? ==> forall k :: LookUp(r.value.labels, k) == LookUp(c.labels, k)
      ensures r.Ok? ==> "" !in r.value.labels.Values
      ensures r.Ok? ==> CreateTx(validId, old(db), ns, id, c, now) == Ok((db, r.value))
    {
      if !ValidContainer(validId, id, c) {
        return Err("create container failed validation");
      }
      if Exists(db, ns, id) {
        return Err("already exists");
      }
      var w := Written(map[], c.(createdAt := now, updatedAt := now));
      assert w.extensions == c.extensions;
      db := Put(db, ns, id, w);
      r := Ok(w);
    }

    /**
     Update. The record it is working on is written back only when every path is known
     and the result is valid. Each field and entry is then as given exactly if the
     paths name it; the extensions stored before stay underneath.
     */
    method Update(ns: string, id: string, c: Container, fieldpaths: seq<string>, now: int)
      returns (r: Result<Container>)
      modifies this
      ensures dirty == old(dirty) && OthersSame(old(db), db, ns, id)
      ensures r.Err? ==> db == old(db)
      ensures r.Ok? <==>
        id != "" && Exists(old(db), ns, id) && Accepted(validId, id, old(db)[ns].containers[id], c, fieldpaths)
      ensures r.Ok? ==>
        && Exists(old(db), ns, id) && Exists(db, ns, id)
        && Replaced(old(db)[ns].containers[id], c, fieldpaths, now, r.value, db[ns].containers[id])
      ensures var t := UpdateTx(validId, old(db), ns, id, c, fieldpaths, now);
        if t.Ok? then db == t.value.0 && r == Ok(t.value.1) else db == old(db) && r.Err?
    {
      hide Mask;
      hide Accepted;
      hide Replaced;
      hide ValidContainer;
      hide Written;
      hide OthersSame;
      NothingChanges(db, ns, id);
      if id == "" {
        return Err("must specify a container id");
      }
      if !Exists(db, ns, id) {
        return Err("not found");
      }
      var u := db[ns].containers[id];
      AcceptedExact(validId, id, u, c, fieldpaths);
      var paths := fieldpaths;
      if |paths| == 0 {
        paths := DEFAULT_PATHS;
        if u.snapshotter != c.snapshotter || u.runtime != c.runtime {
          return Err("field is immutable");
        }
      }
      var masked := ApplyMask(u, c, paths);
      if masked.Err? {
        return masked;
      }
      if !ValidContainer(validId, id, masked.value) {
        return Err("update failed validation");
      }
      var w := masked.value.(updatedAt := now);
      ReplacedExact(u, c, fieldpaths, now, masked.value);
      PutChanges(db, ns, id, Written(u.extensions, w));
      db := Put(db, ns, id, Written(u.extensions, w));
      r := Ok(w.(labels := ContentTx.WrittenLabels(w.labels)));
    }

    /** The container is gone and everything else stays; a collection may have work now. */
    method Delete(ns: string, id: string) returns (r: Result<()>)
      modifies this
      ensures r.Ok? <==> Exists(old(db), ns, id)
      ensures !Exists(db, ns, id) && OthersSame(old(db), db, ns, id)
      ensures r.Err? ==> unchanged(this)
      ensures r.Ok? ==> dirty == old(dirty) + 1 && DeleteTx(old(db), ns, id) == Ok(db)
    {
      if !Exists(db, ns, id) {
        return Err("not found");
      }
      db := db[ns := db[ns].(containers := db[ns].containers - {id})];
      dirty := dirty + 1;
      r := Ok(());
    }
  }

  /** No other container, and no other record of any namespace, has changed. */
  ghost predicate OthersSame(db: Database, db': Database, ns: string, id: string) {
    && (forall n, i :: n != ns || i != id ==> Exists(db', n, i) == Exists(db, n, i))
    && (forall n, i :: (n != ns || i != id) && Exists(db, n, i) && Exists(db', n, i) ==>
        db'[n].containers[i] == db[n].containers[i])
    && (forall n :: ContentTx.Get(db', n).(containers := map[]) == ContentTx.Get(db, n).(containers := map[]))
  }

  lemma NothingChanges(db: Database, ns: string, id: string)
    ensures OthersSame(db, db, ns, id)
  {
  }

  lemma PutChanges(db: Database, ns: string, id: string, c: Container)
    ensures OthersSame(db, Put(db, ns, id, c), ns, id)
    ensures Exists(Put(db, ns, id, c), ns, id) && Put(db, ns, id, c)[ns].containers[id] == c
  {
  }

  /** What is stored as it is given. */
  predicate SameFields(c: Container, c': Container) {
    && c.image == c'.image && c.runtime == c'.runtime && c.spec == c'.spec
    && c.snapshotter == c'.snapshotter && c.snapshotKey == c'.snapshotKey && c.sandboxId == c'.sandboxId
    && c.extensions == c'.extensions
  }

  /** The loop over the field paths. */
  method ApplyMask(u: Container, c: Container, paths: seq<string>) returns (r: Result<Container>)
    ensures r == Mask(u, c, paths)
  {
    var updated := u;
    for i := 0 to |paths|
      invariant Mask(u, c, paths[..i]) == Ok(updated)
    {
      assert paths[..i + 1][..i] == paths[..i];
      var one := MaskOne(updated, c, paths[i]);
      if one.Err? {
        MaskStops(u, c, paths, i + 1);
        return one;
      }
      updated := one.value;
    }
    assert paths[..|paths|] == paths;
    r := Ok(updated);
  }

  /** What is stored is what Update returns, with its extensions merged into those stored before. */
  lemma StoredAfterUpdate(validId: string -> bool, db: Database, ns: string, id: string, c: Container,
                          paths: seq<string>, now: int)
    requires UpdateTx(validId, db, ns, id, c, paths, now).Ok?
    ensures var (db', returned) := UpdateTx(validId, db, ns, id, c, paths, now).value;
      && Exists(db', ns, id) && Exists(db, ns, id)
      && var got, before := db'[ns].containers[id], db[ns].containers[id];
         && got == returned.(extensions := before.extensions + returned.extensions)
         && (got == returned <==> before.extensions.Keys <= returned.extensions.Keys)
  {
    var (db', returned) := UpdateTx(validId, db, ns, id, c, paths, now).value;
    var before := db[ns].containers[id];
    var merged := before.extensions + returned.extensions;
    if before.extensions.Keys <= returned.extensions.Keys {
      assert merged == returned.extensions;
    } else {
      assert merged.Keys == before.extensions.Keys + returned.extensions.Keys;
    }
  }

  /**
   A Get after a successful Update gives what Update returned exactly when the mask
   does not replace the extensions, or else the update gives, or names afterwards,
   every extension the container already had: the stored ones are never dropped.
   */
  lemma GetAfterUpdate(validId: string -> bool, db: Database, ns: string, id: string, c: Container,
                       paths: seq<string>, now: int)
    requires UpdateTx(validId, db, ns, id, c, paths, now).Ok?
    ensures var (db', returned) := UpdateTx(validId, db, ns, id, c, paths, now).value;
      var all := if paths == [] then DEFAULT_PATHS else paths;
      && Exists(db, ns, id) && Exists(db', ns, id)
      && (db'[ns].containers[id] == returned <==>
          ("extensions" in all ==>
            forall k :: k in db[ns].containers[id].extensions ==> k in c.extensions || NamedLast("extensions", all, k)))
  {
    hide NamedLast;
    hide Mask;
    StoredAfterUpdate(validId, db, ns, id, c, paths, now);
    var all := if paths == [] then DEFAULT_PATHS else paths;
    var u := db[ns].containers[id];
    forall k | k in u.extensions
      ensures k in Mask(u, c, all).value.extensions <==>
        "extensions" !in all || k in c.extensions || NamedLast("extensions", all, k)
    {
      MaskHasEntry(u, c, all, k);
    }
  }

  lemma MaskNext(u: Container, c: Container, paths: seq<string>, path: string)
    ensures Mask(u, c, paths).Ok? ==> Mask(u, c, paths + [path]) == MaskOne(Mask(u, c, paths).value, c, path)
  {
    assert (paths + [path])[..|paths|] == paths;
  }

  lemma MaskWhole(u: Container, c: Container)
    ensures MaskOne(u, c, "labels") == Ok(u.(labels := c.labels)) && MaskOne(u, c, "spec") == Ok(u.(spec := c.spec))
    ensures MaskOne(u, c, "extensions") == Ok(u.(extensions := c.extensions))
    ensures MaskOne(u, c, "image") == Ok(u.(image := c.image))
    ensures MaskOne(u, c, "snapshotkey") == Ok(u.(snapshotKey := c.snapshotKey))
  {
    assert "extensions"[0] == 'e' && "snapshotkey"[0] == 's' && "labels."[0] == 'l' && "extensions."[0] == 'e';
  }

  /** An update without field paths takes over all that it may change. */
  lemma DefaultMask(u: Container, c: Container)
    ensures Mask(u, c, DEFAULT_PATHS) ==
      Ok(u.(labels := c.labels, spec := c.spec, extensions := c.extensions, image := c.image,
        snapshotKey := c.snapshotKey))
  {
    hide Mask;
    hide MaskOne;
    MaskNone(u, c);
    MaskNext(u, c, [], "labels");
    MaskNext(u, c, ["labels"], "spec");
    MaskNext(u, c, ["labels", "spec"], "extensions");
    MaskNext(u, c, ["labels", "spec", "extensions"], "image");
    MaskNext(u, c, ["labels", "spec", "extensions", "image"], "snapshotkey");
    var m := u.(labels := c.labels, spec := c.spec);
    MaskWhole(u, c);
    MaskWhole(u.(labels := c.labels), c);
    MaskWhole(m, c);
    MaskWhole(m.(extensions := c.extensions), c);
    MaskWhole(m.(extensions := c.extensions, image := c.image), c);
    assert [] + ["labels"] == ["labels"] && ["labels"] + ["spec"] == ["labels", "spec"];
    assert ["labels", "spec"] + ["extensions"] == ["labels", "spec", "extensions"];
    assert ["labels", "spec", "extensions"] + ["image"] == ["labels", "spec", "extensions", "image"];
    assert ["labels", "spec", "extensions", "image"] + ["snapshotkey"] == DEFAULT_PATHS;
  }

  lemma MaskNone(u: Container, c: Container)
    ensures Mask(u, c, []) == Ok(u)
  {
  }

  const STORED := Container(map[], "", "runc", Some("{}"), "", "", "", map["a" := "x"], 0, 0)

  /** Replacing the extensions of a container by none: Update returns none, Get still has the old one. */
  lemma ExtensionsOutlive(validId: string -> bool, now: int)
    requires validId("c")
    ensures var db := map["n" := EMPTY_NAMESPACE.(containers := map["c" := STORED])];
      var t := UpdateTx(validId, db, "n", "c", STORED.(extensions := map[]), [], now);
      && t.Ok? && t.value.1.extensions == map[]
      && Exists(t.value.0, "n", "c") && t.value.0["n"].containers["c"].extensions == map["a" := "x"]
  {
    hide Mask;
    DefaultMask(STORED, STORED.(extensions := map[]));
    assert STORED.extensions + map[] == STORED.extensions;
  }

  // ---- runs ----

  /** `Other` is any operation of another store: it leaves the containers alone. */
  datatype Op =
    | Create(ns: string, id: string, c: Container, now: int)
    | Update(ns: string, id: string, c: Container, paths: seq<string>, now: int)
    | Delete(ns: string, id: string)
    | Collect(env: Env)
    | Other(db: Database)

  ghost predicate Leaves(db: Database, op: Op) {
    op.Other? ==> forall ns, id ::
      && Exists(op.db, ns, id) == Exists(db, ns, id)
      && (Exists(db, ns, id) ==> op.db[ns].containers[id] == db[ns].containers[id])
  }

  ghost function Next(validId: string -> bool, db: Database, op: Op): Database {
    match op
    case Create(ns, id, c, now) => (match CreateTx(validId, db, ns, id, c, now) case Ok(t) => t.0 case Err(_) => db)
    case Update(ns, id, c, paths, now) =>
      (match UpdateTx(validId, db, ns, id, c, paths, now) case Ok(t) => t.0 case Err(_) => db)
    case Delete(ns, id) => (match DeleteTx(db, ns, id) case Ok(db') => db' case Err(_) => db)
    case Collect(env) => Collected(db, env)
    case Other(db') => db'
  }

  /** A snapshot key comes with a snapshotter. */
  ghost predicate Sound(db: Database) {
    forall ns, id :: Exists(db, ns, id) ==> var c := db[ns].containers[id]; c.snapshotKey != "" ==> c.snapshotter != ""
  }

  lemma StepSound(validId: string -> bool, db: Database, op: Op)
    requires Sound(db) && Leaves(db, op)
    ensures Sound(Next(validId, db, op))
  {
    hide Mask;
  }

  /** A container that is there before and after a step keeps its fixed fields. */
  lemma StepFixed(validId: string -> bool, db: Database, op: Op, ns: string, id: string)
    requires Leaves(db, op) && Exists(db, ns, id) && Exists(Next(validId, db, op), ns, id)
    ensures Fixed(db[ns].containers[id], Next(validId, db, op)[ns].containers[id])
  {
    if op.Update? && op.ns == ns && op.id == id && UpdateTx(validId, db, ns, id, op.c, op.paths, op.now).Ok? {
      MaskIsExact(db[ns].containers[id], op.c, if op.paths == [] then DEFAULT_PATHS else op.paths);
    }
  }

  ghost predicate IsRun(validId: string -> bool, states: seq<Database>, ops: seq<Op>) {
    && |states| == |ops| + 1
    && forall i, j :: 0 <= i < j < |states| && j == i + 1 ==>
        Leaves(states[i], ops[i]) && states[j] == Next(validId, states[i], ops[i])
  }

  /** From a store without containers on, every state is sound. */
  lemma {:induction false} RunsSound(validId: string -> bool, states: seq<Database>, ops: seq<Op>, n: nat)
    requires IsRun(validId, states, ops) && Sound(states[0]) && n < |states|
    ensures Sound(states[n])
    decreases n
  {
    if n > 0 {
      RunsSound(validId, states, ops, n - 1);
      StepSound(validId, states[n - 1], ops[n - 1]);
      assert states[n] == Next(validId, states[n - 1], ops[n - 1]);
    }
  }

  /** As long as a container exists, its runtime, snapshotter, sandbox and creation time stay the same. */
  lemma {:induction false} RunsFixed(validId: string -> bool, states: seq<Database>, ops: seq<Op>, n: nat, ns: string,
                                     id: string)
    requires IsRun(validId, states, ops) && n < |states|
    requires Exists(states[0], ns, id) && Exists(states[n], ns, id)
    requires forall i :: 0 < i < n ==> Exists(states[i], ns, id)
    ensures Fixed(states[0][ns].containers[id], states[n][ns].containers[id])
    decreases n
  {
    if n > 0 {
      RunsFixed(validId, states, ops, n - 1, ns, id);
      assert states[n] == Next(validId, states[n - 1], ops[n - 1]);
      StepFixed(validId, states[n - 1], ops[n - 1], ns, id);
    }
  }

  lemma SoundAt(db: Database, ns: string, id: string)
    requires Sound(db) && Exists(db, ns, id) && db[ns].containers[id].snapshotKey != ""
    ensures db[ns].containers[id].snapshotter != ""
  {
  }

  /** No collection of a run removes the snapshot of a container that exists. */
  lemma RunsKeepSnapshots(validId: string -> bool, states: seq<Database>, ops: seq<Op>, n: nat, ns: string,
                          id: string, ss: Snapshotter)
    requires IsRun(validId, states, ops) && Sound(states[0]) && n < |ops| && ops[n].Collect?
    requires Exists(states[n], ns, id)
    requires var c := states[n][ns].containers[id];
      c.snapshotKey != "" && c.snapshotter == ss && (ss, c.snapshotKey) in states[n][ns].snapshots
    ensures Exists(states[n + 1], ns, id) && states[n + 1][ns].containers[id] == states[n][ns].containers[id]
    ensures (ss, states[n][ns].containers[id].snapshotKey) in states[n + 1][ns].snapshots
  {
    hide Kept;
    hide Sound;
    RunsSound(validId, states, ops, n);
    SoundAt(states[n], ns, id);
    var m := n + 1;
    assert states[m] == Next(validId, states[n], ops[n]);
    ContainerSnapshotSurvives(states[n], ops[n].env, ns, id, ss);
  }
}
