/** DB.Init and the schema migrations, over the buckets that they read and write. */
module Migrations {
  import opened Bytes

  /** A snapshot's parent key ("" when absent) and its children bucket. */
  datatype SnapBucket = SnapBucket(parent: string, children: set<string>, other: map<string, string>)

  /** Values and sub-buckets of a sandbox; None in a sub-bucket is a bucket nested in it. */
  datatype SandboxBucket = SandboxBucket(fields: map<string, string>, subs: Subs)

  type Subs = map<string, map<string, Option<string>>>
  type Snaps = map<string, SnapBucket>
  type Sandboxes = map<string, SandboxBucket>

  /** A namespace: its snapshotters, the deprecated flat ingest bucket, the structured one, and its sandboxes. */
  datatype Space = Space(
    snapshots: map<string, Snaps>,
    flatIngests: Option<map<string, string>>,
    ingests: map<string, map<string, string>>,
    sandboxes: Sandboxes,
    other: map<string, string>)

  const EMPTY_SPACE := Space(map[], None, map[], map[], map[])
  const EMPTY_SANDBOX := SandboxBucket(map[], map[])

  datatype V1 = V1(version: Option<int>, spaces: map<string, Space>)

  /** The root of the file: the v1 bucket, and the buckets beside it with the sandboxes they may hold. */
  datatype Root = Root(v1: Option<V1>, others: map<string, Option<Sandboxes>>)

  // ---- addChildLinks ----

  /** Every snapshot gains the snapshots that name it as their parent. */
  function Linked(snaps: Snaps, done: set<string>): Snaps {
    map k | k in snaps :: snaps[k].(children := snaps[k].children + ChildrenOf(snaps, done, k))
  }

  function ChildrenOf(snaps: Snaps, done: set<string>, k: string): set<string> {
    set c | c in done && c in snaps && snaps[c].parent == k && k != ""
  }

  function LinkedSpace(s: Space): Space {
    s.(snapshots := map ss | ss in s.snapshots :: Linked(s.snapshots[ss], s.snapshots[ss].Keys))
  }

  method LinkSnapshots(snaps: Snaps) returns (r: Snaps)
    ensures r == Linked(snaps, snaps.Keys)
  {
    r := snaps;
    var todo, done := snaps.Keys, {};
    LinkNone(snaps);
    while todo != {}
      invariant todo !! done && todo + done == snaps.Keys
      invariant r == Linked(snaps, done)
    {
      var k :| k in todo;
      var parent := r[k].parent;
      if |parent| > 0 && parent in r {
        r := r[parent := r[parent].(children := r[parent].children + {k})];
      }
      LinkOne(snaps, done, k, r);
      todo, done := todo - {k}, done + {k};
    }
  }

  lemma LinkNone(snaps: Snaps)
    ensures Linked(snaps, {}) == snaps
  {
    forall k | k in snaps ensures Linked(snaps, {})[k] == snaps[k] {
      assert Linked(snaps, {})[k].children == snaps[k].children;
    }
  }

  lemma OneChild(snaps: Snaps, done: set<string>, k: string, x: string)
    requires k in snaps
    ensures ChildrenOf(snaps, done + {k}, x) ==
      ChildrenOf(snaps, done, x) + if snaps[k].parent == x && x != "" then {k} else {}
  {
  }

  lemma LinkOne(snaps: Snaps, done: set<string>, k: string, r: Snaps)
    requires k in snaps
    requires var l, p := Linked(snaps, done), snaps[k].parent;
      r == if p != "" && p in snaps then l[p := l[p].(children := l[p].children + {k})] else l
    ensures r == Linked(snaps, done + {k})
  {
    hide ChildrenOf;
    var l := Linked(snaps, done + {k});
    forall x | x in snaps ensures r[x] == l[x] {
      OneChild(snaps, done, k, x);
      assert r[x].children == l[x].children;
    }
  }

  method LinkSpace(s: Space) returns (r: Space)
    ensures r == LinkedSpace(s)
  {
    var snapshots := s.snapshots;
    var todo := snapshots.Keys;
    while todo != {}
      invariant todo <= s.snapshots.Keys && snapshots.Keys == s.snapshots.Keys
      invariant forall ss :: ss in snapshots ==>
        snapshots[ss] == if ss in todo then s.snapshots[ss] else Linked(s.snapshots[ss], s.snapshots[ss].Keys)
    {
      var ss :| ss in todo;
      var linked := LinkSnapshots(snapshots[ss]);
      snapshots, todo := snapshots[ss := linked], todo - {ss};
    }
    r := s.(snapshots := snapshots);
  }

  function AllLinked(spaces: map<string, Space>): map<string, Space> {
    map ns | ns in spaces :: LinkedSpace(spaces[ns])
  }

  method LinkSpaces(spaces: map<string, Space>) returns (r: map<string, Space>)
    ensures r == AllLinked(spaces)
  {
    r := spaces;
    var todo := spaces.Keys;
    while todo != {}
      invariant todo <= spaces.Keys == r.Keys
      invariant forall ns :: ns in r ==> r[ns] == if ns in todo then spaces[ns] else LinkedSpace(spaces[ns])
    {
      var ns :| ns in todo;
      var s := LinkSpace(r[ns]);
      r, todo := r[ns := s], todo - {ns};
    }
  }

  // ---- migrateIngests ----

  /** The links of the flat bucket become the "ref" key of structured ingests. */
  function Restructured(flat: map<string, string>,
                        ingests: map<string, map<string, string>>): map<string, map<string, string>> {
    map ref | ref in flat.Keys + ingests.Keys ::
      var before := if ref in ingests then ingests[ref] else map[];
      if ref in flat then before["ref" := flat[ref]] else before
  }

  function IngestSpace(s: Space): Space {
    match s.flatIngests
    case None => s
    case Some(flat) => s.(flatIngests := None, ingests := Restructured(flat, s.ingests))
  }

  method MoveIngests(s: Space) returns (r: Space)
    ensures r == IngestSpace(s)
  {
    if s.flatIngests.None? {
      return s;
    }
    var flat := s.flatIngests.value;
    var ingests := s.ingests;
    var todo := flat.Keys;
    while todo != {}
      invariant todo <= flat.Keys
      invariant ingests == Restructured(map k | k in flat && k !in todo :: flat[k], s.ingests)
    {
      var ref :| ref in todo;
      ingests := ingests[ref := (if ref in ingests then ingests[ref] else map[])["ref" := flat[ref]]];
      todo := todo - {ref};
    }
    assert (map k | k in flat && k !in todo :: flat[k]) == flat;
    r := s.(flatIngests := None, ingests := ingests);
  }

  function AllRestructured(spaces: map<string, Space>): map<string, Space> {
    map ns | ns in spaces :: IngestSpace(spaces[ns])
  }

  method MoveAllIngests(spaces: map<string, Space>) returns (r: map<string, Space>)
    ensures r == AllRestructured(spaces)
  {
    r := spaces;
    var todo := spaces.Keys;
    while todo != {}
      invariant todo <= spaces.Keys == r.Keys
      invariant forall ns :: ns in r ==> r[ns] == if ns in todo then spaces[ns] else IngestSpace(spaces[ns])
    {
      var ns :| ns in todo;
      var s := MoveIngests(r[ns]);
      r, todo := r[ns := s], todo - {ns};
    }
  }

  // ---- migrateSandboxes ----

  predicate Flat(sub: map<string, Option<string>>) {
    forall k :: k in sub ==> sub[k].Some?
  }

  /** Nothing in the sandbox is nested deeper than the migration copies. */
  predicate Copyable(sb: SandboxBucket) {
    forall k :: k in sb.subs ==> Flat(sb.subs[k])
  }

  predicate AllCopyable(sbs: Sandboxes) {
    forall k :: k in sbs ==> Copyable(sbs[k])
  }

  function SubOf(subs: Subs, k: string): map<string, Option<string>> {
    if k in subs then subs[k] else map[]
  }

  function MergedSubs(to: Subs, from: Subs): Subs {
    map k | k in to.Keys + from.Keys :: SubOf(to, k) + SubOf(from, k)
  }

  function Merged(to: SandboxBucket, from: SandboxBucket): SandboxBucket {
    SandboxBucket(to.fields + from.fields, MergedSubs(to.subs, from.subs))
  }

  function MergedAll(to: Sandboxes, from: Sandboxes): Sandboxes {
    map k | k in to.Keys + from.Keys ::
      var before := if k in to then to[k] else EMPTY_SANDBOX;
      if k in from then Merged(before, from[k]) else before
  }

  lemma MergeNone(to: SandboxBucket, all: Sandboxes)
    ensures MergedSubs(to.subs, map[]) == to.subs && MergedAll(all, map[]) == all
  {
    forall k | k in to.subs ensures MergedSubs(to.subs, map[])[k] == to.subs[k] {
      assert SubOf(to.subs, k) + map[] == to.subs[k];
    }
  }

  lemma MergeSub(to: Subs, done: Subs, k: string, sub: map<string, Option<string>>)
    requires k !in done
    ensures var m := MergedSubs(to, done); MergedSubs(to, done[k := sub]) == m[k := SubOf(m, k) + sub]
  {
    var m, m' := MergedSubs(to, done), MergedSubs(to, done[k := sub]);
    var t := m[k := SubOf(m, k) + sub];
    assert m'.Keys == t.Keys;
    forall x | x in m' ensures m'[x] == t[x] {
      if x == k {
        assert SubOf(to, k) + map[] == SubOf(to, k);
      } else {
        assert SubOf(done[k := sub], x) == SubOf(done, x);
      }
    }
  }

  lemma MergeOne(to: Sandboxes, done: Sandboxes, k: string, sb: SandboxBucket)
    requires k !in done
    ensures var m := MergedAll(to, done);
      MergedAll(to, done[k := sb]) == m[k := Merged(if k in m then m[k] else EMPTY_SANDBOX, sb)]
  {
  }

  method CopySandbox(to: SandboxBucket, from: SandboxBucket) returns (r: Option<SandboxBucket>)
    ensures r == if Copyable(from) then Some(Merged(to, from)) else None
  {
    hide MergedSubs;
    var subs := to.subs;
    var todo := from.subs.Keys;
    ghost var done: Subs := map[];
    MergeNone(to, map[]);
    while todo != {}
      invariant todo !! done.Keys && todo + done.Keys == from.subs.Keys
      invariant forall k :: k in done ==> done[k] == from.subs[k] && Flat(done[k])
      invariant subs == MergedSubs(to.subs, done)
    {
      var k :| k in todo;
      if !Flat(from.subs[k]) {
        return None;
      }
      MergeSub(to.subs, done, k, from.subs[k]);
      subs := subs[k := SubOf(subs, k) + from.subs[k]];
      todo, done := todo - {k}, done[k := from.subs[k]];
    }
    assert done == from.subs;
    r := Some(SandboxBucket(to.fields + from.fields, subs));
  }

  method CopySandboxes(to: Sandboxes, from: Sandboxes) returns (r: Option<Sandboxes>)
    ensures r == if AllCopyable(from) then Some(MergedAll(to, from)) else None
  {
    hide MergedAll;
    hide Merged;
    hide Copyable;
    var all := to;
    var todo := from.Keys;
    ghost var done: Sandboxes := map[];
    MergeNone(EMPTY_SANDBOX, to);
    while todo != {}
      invariant todo !! done.Keys && todo + done.Keys == from.Keys
      invariant forall k :: k in done ==> done[k] == from[k] && Copyable(done[k])
      invariant all == MergedAll(to, done)
    {
      var k :| k in todo;
      var copied := CopySandbox(if k in all then all[k] else EMPTY_SANDBOX, from[k]);
      if copied.None? {
        return None;
      }
      MergeOne(to, done, k, from[k]);
      all, todo, done := all[k := copied.value], todo - {k}, done[k := from[k]];
    }
    assert done == from;
    r := Some(all);
  }

  /** The namespaces of v1 after the buckets beside it have been moved in. */
  function Moved(spaces: map<string, Space>, others: map<string, Option<Sandboxes>>): map<string, Space> {
    map ns | ns in spaces.Keys + others.Keys && (ns in spaces || others[ns].Some?) ::
      var s := if ns in spaces then spaces[ns] else EMPTY_SPACE;
      if ns in others && others[ns].Some? then s.(sandboxes := MergedAll(s.sandboxes, others[ns].value)) else s
  }

  predicate Movable(others: map<string, Option<Sandboxes>>) {
    forall ns :: ns in others && others[ns].Some? ==> AllCopyable(others[ns].value)
  }

  lemma MoveNone(spaces: map<string, Space>)
    ensures Moved(spaces, map[]) == spaces
  {
  }

  lemma MoveOne(spaces: map<string, Space>, done: map<string, Option<Sandboxes>>, ns: string, o: Option<Sandboxes>)
    requires ns !in done
    ensures var m := Moved(spaces, done);
      var s := if ns in m then m[ns] else EMPTY_SPACE;
      Moved(spaces, done[ns := o]) == if o.None? then m else m[ns := s.(sandboxes := MergedAll(s.sandboxes, o.value))]
  {
    hide MergedAll;
  }

  method MoveSandboxes(spaces: map<string, Space>, others: map<string, Option<Sandboxes>>)
    returns (r: Option<map<string, Space>>)
    ensures r == if Movable(others) then Some(Moved(spaces, others)) else None
  {
    hide Moved;
    hide MergedAll;
    hide AllCopyable;
    var all := spaces;
    var todo := others.Keys;
    ghost var done: map<string, Option<Sandboxes>> := map[];
    MoveNone(spaces);
    while todo != {}
      invariant todo !! done.Keys && todo + done.Keys == others.Keys
      invariant forall ns :: ns in done ==> done[ns] == others[ns] && (done[ns].Some? ==> AllCopyable(done[ns].value))
      invariant all == Moved(spaces, done)
    {
      var ns :| ns in todo;
      MoveOne(spaces, done, ns, others[ns]);
      if others[ns].Some? {
        var s := if ns in all then all[ns] else EMPTY_SPACE;
        var copied := CopySandboxes(s.sandboxes, others[ns].value);
        if copied.None? {
          return None;
        }
        all := all[ns := s.(sandboxes := copied.value)];
      }
      todo, done := todo - {ns}, done[ns := others[ns]];
    }
    assert done == others;
    r := Some(all);
  }

  // ---- Init ----

  datatype Migrate = AddChildLinks | MigrateIngests | NoOp | MigrateSandboxes

  datatype Migration = Migration(schema: string, version: int, migrate: Migrate)

  const MIGRATIONS := [
    Migration("v1", 1, AddChildLinks),
    Migration("v1", 2, MigrateIngests),
    Migration("v1", 3, NoOp),
    Migration("v1", 4, MigrateSandboxes)]

  const DB_VERSION := 4

  function WithSpaces(r: Root, spaces: map<string, Space>): Root
    requires r.v1.Some?
  {
    r.(v1 := Some(r.v1.value.(spaces := spaces)))
  }

  /** What one migration does; None is an error. */
  function Migrated(r: Root, m: Migrate): Option<Root> {
    match m
    case AddChildLinks => Some(if r.v1.None? then r else WithSpaces(r, AllLinked(r.v1.value.spaces)))
    case MigrateIngests => Some(if r.v1.None? then r else WithSpaces(r, AllRestructured(r.v1.value.spaces)))
    case NoOp => Some(r)
    case MigrateSandboxes =>
      var v := if r.v1.None? then V1(None, map[]) else r.v1.value;
      if Movable(r.others) then Some(Root(Some(v.(spaces := Moved(v.spaces, r.others))), map[])) else None
  }

  function MigratedAll(r: Root, ms: seq<Migration>): Option<Root>
    decreases |ms|
  {
    if ms == [] then Some(r) else
      match Migrated(r, ms[0].migrate)
      case None => None
      case Some(r') => MigratedAll(r', ms[1..])
  }

  function Stored(r: Root): int {
    if r.v1.Some? && r.v1.value.version.Some? then r.v1.value.version.value else 0
  }

  /** The migrations that are newer than the stored version, in the order of the table. */
  function Newer(ms: seq<Migration>, version: int): seq<Migration> {
    if ms == [] then [] else (if ms[0].version > version then [ms[0]] else []) + Newer(ms[1..], version)
  }

  function WithVersion(r: Root): Root {
    r.(v1 := Some((if r.v1.None? then V1(None, map[]) else r.v1.value).(version := Some(DB_VERSION))))
  }

  /**
   What Init promises: a new file just gets its version, an old one exactly its newer
   migrations; None is an error.
   */
  function Initialised(r: Root): Option<Root> {
    if r.v1.None? then Some(WithVersion(r))
    else
      var updates := Newer(MIGRATIONS, Stored(r));
      if updates == [] then Some(r)
      else
        match MigratedAll(r, updates)
        case None => None
        case Some(r') => Some(WithVersion(r'))
  }

  /** The metadata database file. */
  class DB {
    var root: Root

    constructor (root: Root)
      ensures this.root == root
    {
      this.root := root;
    }

    method Run(m: Migrate) returns (ok: bool)
      modifies this
      ensures var t := Migrated(old(root), m); ok == t.Some? && root == if ok then t.value else old(root)
    {
      ok := true;
      match m
      case NoOp =>
      case AddChildLinks =>
        if root.v1.Some? {
          var spaces := LinkSpaces(root.v1.value.spaces);
          root := root.(v1 := Some(root.v1.value.(spaces := spaces)));
        }
      case MigrateIngests =>
        if root.v1.Some? {
          var spaces := MoveAllIngests(root.v1.value.spaces);
          root := root.(v1 := Some(root.v1.value.(spaces := spaces)));
        }
      case MigrateSandboxes =>
        var v := if root.v1.None? then V1(None, map[]) else root.v1.value;
        var moved := MoveSandboxes(v.spaces, root.others);
        ok := moved.Some?;
        if ok {
          root := Root(Some(v.(spaces := moved.value)), map[]);
        }
    }

    /** The index of the first migration to run, found from the newest backwards. */
    method FirstMigration() returns (i: nat, found: bool)
      ensures found == root.v1.Some? && i <= |MIGRATIONS|
      ensures found ==> MIGRATIONS[i..] == Newer(MIGRATIONS, Stored(root))
    {
      var schema, version := "v0", 0;
      i := |MIGRATIONS|;
      while i > 0
        invariant i <= |MIGRATIONS|
        invariant schema == if root.v1.Some? && i < |MIGRATIONS| then "v1" else "v0"
        invariant schema == "v1" ==> version == Stored(root)
        invariant root.v1.Some? ==> forall j :: i <= j < |MIGRATIONS| ==> MIGRATIONS[j].version > Stored(root)
      {
        var migration := MIGRATIONS[i - 1];
        if root.v1.None? {
          if schema != "v0" {
            break;
          }
        } else {
          if schema == "v0" {
            schema := migration.schema;
            version := if root.v1.value.version.Some? then root.v1.value.version.value else 0;
          }
          if version >= migration.version {
            break;
          }
        }
        i := i - 1;
      }
      found := schema != "v0";
      if found {
        NewerSuffix(i, Stored(root));
      }
    }

    /** Init: all of it happens, or nothing. */
    method Init() returns (ok: bool)
      modifies this
      ensures ok <==> Initialised(old(root)).Some?
      ensures root == if ok then Initialised(old(root)).value else old(root)
    {
      var i, found := FirstMigration();
      var before := root;
      if found {
        var updates := MIGRATIONS[i..];
        if |updates| == 0 {
          return true;
        }
        var j := 0;
        while j < |updates|
          invariant 0 <= j <= |updates|
          invariant MigratedAll(before, updates) == MigratedAll(root, updates[j..])
        {
          ok := Run(updates[j].migrate);
          if !ok {
            root := before;
            return;
          }
          assert updates[j..][1..] == updates[j + 1..];
          j := j + 1;
        }
      }
      root := WithVersion(root);
      ok := true;
    }
  }

  /** The table is ordered, so the newer migrations are a suffix of it. */
  lemma NewerSuffix(i: nat, version: int)
    requires i <= |MIGRATIONS|
    requires forall j :: i <= j < |MIGRATIONS| ==> MIGRATIONS[j].version > version
    requires i > 0 ==> MIGRATIONS[i - 1].version <= version
    ensures Newer(MIGRATIONS, version) == MIGRATIONS[i..]
  {
    NewerAll(MIGRATIONS[i..], version);
    NewerNone(MIGRATIONS[..i], version);
    NewerAppend(MIGRATIONS[..i], MIGRATIONS[i..], version);
    assert MIGRATIONS == MIGRATIONS[..i] + MIGRATIONS[i..];
  }

  lemma {:induction false} NewerAll(ms: seq<Migration>, version: int)
    requires forall j :: 0 <= j < |ms| ==> ms[j].version > version
    ensures Newer(ms, version) == ms
    decreases |ms|
  {
    if ms != [] {
      NewerAll(ms[1..], version);
    }
  }

  lemma {:induction false} NewerNone(ms: seq<Migration>, version: int)
    requires forall j :: 0 <= j < |ms| ==> ms[j].version <= version
    ensures Newer(ms, version) == []
    decreases |ms|
  {
    if ms != [] {
      NewerNone(ms[1..], version);
    }
  }

  lemma {:induction false} NewerAppend(a: seq<Migration>, b: seq<Migration>, version: int)
    ensures Newer(a + b, version) == Newer(a, version) + Newer(b, version)
    decreases |a|
  {
    if a == [] {
      assert a + b == b;
    } else {
      assert (a + b)[1..] == a[1..] + b;
      NewerAppend(a[1..], b, version);
    }
  }

  // ---- what Init leaves ----

  /** A second Init changes nothing. */
  lemma InitTwice(r: Root)
    requires Initialised(r).Some?
    ensures Initialised(Initialised(r).value) == Initialised(r)
  {
    var r' := Initialised(r).value;
    if Stored(r') == DB_VERSION {
      NewerSuffix(|MIGRATIONS|, DB_VERSION);
    }
  }

  /** Init of an old file fails exactly when sandboxes have to be moved and one of them nests too deep. */
  lemma InitFails(r: Root)
    ensures Initialised(r).None? <==> r.v1.Some? && Stored(r) < DB_VERSION && !Movable(r.others)
  {
    if r.v1.Some? {
      Steps(r);
    }
  }

  /** The four migrations one after the other, from the stored version on. */
  function Step(r: Root, version: int, m: Migration): Option<Root> {
    if version < m.version then Migrated(r, m.migrate) else Some(r)
  }

  lemma Steps(r: Root)
    requires r.v1.Some?
    ensures var v := Stored(r);
      var a := Step(r, v, MIGRATIONS[0]).value;
      var b := Step(a, v, MIGRATIONS[1]).value;
      MigratedAll(r, Newer(MIGRATIONS, v)) == Step(b, v, MIGRATIONS[3]) && b.others == r.others && b.v1.Some?
    ensures Newer(MIGRATIONS, Stored(r)) == [] <==> Stored(r) >= DB_VERSION
  {
    var v := Stored(r);
    var i := if v < 1 then 0 else if v < 2 then 1 else if v < 3 then 2 else if v < 4 then 3 else 4;
    NewerSuffix(i, v);
    FromZero(r);
    FromOne(r);
    FromTwo(r);
    FromThree(r);
    FromFour(r);
  }

  lemma Unroll(r: Root, i: nat)
    requires i < |MIGRATIONS|
    ensures MigratedAll(r, MIGRATIONS[i..]) ==
      match Migrated(r, MIGRATIONS[i].migrate)
      case None => None
      case Some(r') => MigratedAll(r', MIGRATIONS[i + 1..])
  {
    assert MIGRATIONS[i..][1..] == MIGRATIONS[i + 1..];
  }

  lemma FromFour(r: Root)
    ensures MigratedAll(r, MIGRATIONS[4..]) == Some(r)
  {
  }

  lemma FromThree(r: Root)
    ensures MigratedAll(r, MIGRATIONS[3..]) == Migrated(r, MigrateSandboxes)
  {
    hide Migrated;
    Unroll(r, 3);
    if Migrated(r, MigrateSandboxes).Some? {
      FromFour(Migrated(r, MigrateSandboxes).value);
    }
  }

  lemma FromTwo(r: Root)
    ensures MigratedAll(r, MIGRATIONS[2..]) == Migrated(r, MigrateSandboxes)
  {
    Unroll(r, 2);
    FromThree(r);
  }

  lemma FromOne(r: Root)
    ensures MigratedAll(r, MIGRATIONS[1..]) == Migrated(Migrated(r, MigrateIngests).value, MigrateSandboxes)
  {
    Unroll(r, 1);
    FromTwo(Migrated(r, MigrateIngests).value);
  }

  lemma FromZero(r: Root)
    ensures MigratedAll(r, MIGRATIONS[0..]) ==
        Migrated(Migrated(Migrated(r, AddChildLinks).value, MigrateIngests).value, MigrateSandboxes)
  {
    Unroll(r, 0);
    FromOne(Migrated(r, AddChildLinks).value);
  }

  /** Every link of a flat ingest bucket of an old file is there afterwards, and no flat bucket is. */
  lemma IngestsCarried(r: Root, ns: string, ref: string)
    requires r.v1.Some? && Stored(r) < 2 && Initialised(r).Some? && ns in r.v1.value.spaces
    requires var flat := r.v1.value.spaces[ns].flatIngests; flat.Some? && ref in flat.value
    ensures ns in Initialised(r).value.v1.value.spaces
    ensures var s := Initialised(r).value.v1.value.spaces[ns];
      && s.flatIngests.None? && ref in s.ingests && "ref" in s.ingests[ref]
      && s.ingests[ref]["ref"] == r.v1.value.spaces[ns].flatIngests.value[ref]
  {
    Steps(r);
  }

  /**
   Every field and sub-bucket value of a sandbox stored beside v1 is in v1 afterwards,
   and nothing is left beside it.
   */
  lemma SandboxesCarried(r: Root, ns: string, id: string)
    requires r.v1.Some? && Stored(r) < 4 && Initialised(r).Some?
    requires ns in r.others && r.others[ns].Some? && id in r.others[ns].value
    ensures Initialised(r).value.others == map[] && ns in Initialised(r).value.v1.value.spaces
    ensures var sbs, sb := Initialised(r).value.v1.value.spaces[ns].sandboxes, r.others[ns].value[id];
      && id in sbs
      && (forall k :: k in sb.fields ==> k in sbs[id].fields && sbs[id].fields[k] == sb.fields[k])
      && (forall s, k :: s in sb.subs && k in sb.subs[s] ==>
          s in sbs[id].subs && k in sbs[id].subs[s] && sbs[id].subs[s][k] == sb.subs[s][k])
  {
    Steps(r);
  }

  /** The later migrations leave the snapshots alone. */
  lemma SnapshotsStay(spaces: map<string, Space>, others: map<string, Option<Sandboxes>>, ns: string)
    requires ns in spaces
    ensures ns in Moved(AllRestructured(spaces), others)
    ensures Moved(AllRestructured(spaces), others)[ns].snapshots == spaces[ns].snapshots
  {
    hide MergedAll;
    hide Restructured;
  }

  lemma SnapshotsLinked(r: Root, ns: string)
    requires r.v1.Some? && Stored(r) < 1 && Initialised(r).Some? && ns in r.v1.value.spaces
    ensures Initialised(r).value.v1.Some? && ns in Initialised(r).value.v1.value.spaces
    ensures Initialised(r).value.v1.value.spaces[ns].snapshots == LinkedSpace(r.v1.value.spaces[ns]).snapshots
  {
    hide Moved;
    hide AllRestructured;
    hide LinkedSpace;
    hide MigratedAll;
    hide Newer;
    hide Movable;
    Steps(r);
    SnapshotsStay(AllLinked(r.v1.value.spaces), r.others, ns);
  }

  /**
   Every parent link to an existing snapshot has its child link afterwards, and every
   other child link was there before.
   */
  lemma ChildLinks(r: Root, ns: string, ss: string, p: string, c: string)
    requires r.v1.Some? && Stored(r) < 1 && Initialised(r).Some?
    requires ns in r.v1.value.spaces && ss in r.v1.value.spaces[ns].snapshots
    requires p != "" && p in r.v1.value.spaces[ns].snapshots[ss]
    ensures Initialised(r).value.v1.Some?
    ensures var spaces := Initialised(r).value.v1.value.spaces;
      ns in spaces && ss in spaces[ns].snapshots && p in spaces[ns].snapshots[ss]
    ensures var before := r.v1.value.spaces[ns].snapshots[ss];
      var after := Initialised(r).value.v1.value.spaces[ns].snapshots[ss];
      c in after[p].children <==> c in before[p].children || (c in before && before[c].parent == p)
  {
    hide Initialised;
    SnapshotsLinked(r, ns);
  }

  // ---- what Init leaves alone ----

  /** The snapshots are the same but for child links, which only a file older than version 1 gains. */
  ghost predicate SnapsKept(v: int, a: Snaps, b: Snaps) {
    && (forall k :: k in b <==> k in a)
    && (forall k :: k in a ==> b[k].parent == a[k].parent && b[k].other == a[k].other)
    && (forall k :: k in a ==> a[k].children <= b[k].children && (v >= 1 ==> b[k].children == a[k].children))
  }

  ghost predicate SnapshotsKept(v: int, a: map<string, Snaps>, b: map<string, Snaps>) {
    (forall ss :: ss in b <==> ss in a) && (forall ss :: ss in a ==> SnapsKept(v, a[ss], b[ss]))
  }

  /** The structured ingests only gain what the flat bucket of a file older than version 2 has. */
  ghost predicate IngestsKept(v: int, a: Space, b: Space) {
    && (v >= 2 || a.flatIngests.None? ==> b.ingests == a.ingests && b.flatIngests == a.flatIngests)
    && (v < 2 ==> b.flatIngests.None?)
    && (forall ref :: ref in a.ingests ==> ref in b.ingests)
    && (forall ref, k :: ref in a.ingests && k in a.ingests[ref] && k != "ref" ==>
          k in b.ingests[ref] && b.ingests[ref][k] == a.ingests[ref][k])
    && (forall ref :: ref in b.ingests && ref !in a.ingests ==>
          a.flatIngests.Some? && ref in a.flatIngests.value && b.ingests[ref].Keys == {"ref"})
  }

  lemma LinkingKeeps(v: int, s: Space)
    requires v < 1
    ensures SnapshotsKept(v, s.snapshots, LinkedSpace(s).snapshots)
  {
    hide ChildrenOf;
  }

  lemma SameSnapshots(v: int, a: map<string, Snaps>)
    ensures SnapshotsKept(v, a, a)
  {
  }

  lemma MovingKeeps(s: Space)
    ensures IngestsKept(1, s, IngestSpace(s))
  {
  }

  /** A namespace of v1 through the first two migrations. */
  function Updated(v: int, s: Space): Space {
    var a := if v < 1 then LinkedSpace(s) else s;
    if v < 2 then IngestSpace(a) else a
  }

  lemma UpdatedKeeps(v: int, s: Space)
    ensures var t := Updated(v, s);
      && SnapshotsKept(v, s.snapshots, t.snapshots) && IngestsKept(v, s, t)
      && t.other == s.other && t.sandboxes == s.sandboxes && (v >= 2 ==> t == s)
  {
    hide SnapshotsKept;
    hide Restructured;
    SameSnapshots(v, s.snapshots);
    if v < 2 {
      MovingKeeps(s);
      MovingKeeps(if v < 1 then LinkedSpace(s) else s);
    }
    if v < 1 {
      LinkingKeeps(v, s);
    }
  }

  lemma UpdatedSpaces(r: Root, v: int) returns (b: Root)
    requires r.v1.Some?
    ensures var a := Step(r, v, MIGRATIONS[0]); a.Some? && Step(a.value, v, MIGRATIONS[1]) == Some(b)
    ensures
      && b.v1.Some? && b.v1.value.spaces.Keys == r.v1.value.spaces.Keys && b.v1.value.version == r.v1.value.version
      && b.others == r.others
      && forall ns :: ns in r.v1.value.spaces ==> b.v1.value.spaces[ns] == Updated(v, r.v1.value.spaces[ns])
  {
    hide IngestSpace;
    hide LinkedSpace;
    b := Step(Step(r, v, MIGRATIONS[0]).value, v, MIGRATIONS[1]).value;
  }

  /** The sandboxes that Init moves into a namespace. */
  function Incoming(r: Root, ns: string): Option<Sandboxes> {
    if Stored(r) < 4 && ns in r.others then r.others[ns] else None
  }

  lemma MovedAt(spaces: map<string, Space>, others: map<string, Option<Sandboxes>>, ns: string)
    ensures ns in Moved(spaces, others) <==> ns in spaces || (ns in others && others[ns].Some?)
    ensures ns in spaces ==> var s, t := spaces[ns], Moved(spaces, others)[ns];
      t == s.(sandboxes := t.sandboxes) && (ns !in others || others[ns].None? ==> t.sandboxes == s.sandboxes)
  {
    hide MergedAll;
  }

  /** Which namespaces there are after Init, and at which version. */
  lemma InitNamespaces(r: Root, ns: string)
    requires r.v1.Some? && Initialised(r).Some?
    ensures Initialised(r).value.v1.Some?
    ensures var v1 := Initialised(r).value.v1.value;
      && v1.version == (if Stored(r) < 4 then Some(4) else r.v1.value.version)
      && (ns in v1.spaces <==> ns in r.v1.value.spaces || Incoming(r, ns).Some?)
      && (ns in r.v1.value.spaces ==>
            var t := Updated(Stored(r), r.v1.value.spaces[ns]);
            && v1.spaces[ns] == t.(sandboxes := v1.spaces[ns].sandboxes)
            && (Incoming(r, ns).None? ==> v1.spaces[ns].sandboxes == t.sandboxes))
  {
    hide Moved;
    hide Updated;
    hide MigratedAll;
    hide Newer;
    hide Movable;
    hide Step;
    Steps(r);
    var b := UpdatedSpaces(r, Stored(r));
    if Stored(r) < 4 {
      LastStep(b, Stored(r));
      MovedAt(b.v1.value.spaces, r.others, ns);
    } else if ns in r.v1.value.spaces {
      UpdatedKeeps(Stored(r), r.v1.value.spaces[ns]);
    }
  }

  lemma LastStep(b: Root, v: int)
    requires b.v1.Some? && v < 4
    ensures Step(b, v, MIGRATIONS[3]).Some? ==>
      Step(b, v, MIGRATIONS[3]) == Some(Root(Some(b.v1.value.(spaces := Moved(b.v1.value.spaces, b.others))), map[]))
  {
    hide Moved;
    hide Movable;
  }

  /**
   Everything in a namespace outlives Init: snapshots with their parents and values,
   structured ingests with theirs, and whatever no migration knows; sandboxes only
   change where some are moved in.
   */
  lemma NamespaceCarried(r: Root, ns: string)
    requires r.v1.Some? && Initialised(r).Some? && ns in r.v1.value.spaces
    ensures Initialised(r).value.v1.Some? && ns in Initialised(r).value.v1.value.spaces
    ensures var a, b := r.v1.value.spaces[ns], Initialised(r).value.v1.value.spaces[ns];
      && b.other == a.other
      && SnapshotsKept(Stored(r), a.snapshots, b.snapshots)
      && IngestsKept(Stored(r), a, b)
      && (Incoming(r, ns).None? ==> b.sandboxes == a.sandboxes)
  {
    hide Initialised;
    hide Updated;
    hide SnapshotsKept;
    InitNamespaces(r, ns);
    UpdatedKeeps(Stored(r), r.v1.value.spaces[ns]);
  }
}
