/**
 The metadata database at the level of its records: what core/metadata stores
 per namespace in nested bolt buckets, and the nodes the collector names them by.
 */
module Records {
  import opened Bytes

  /** gc.ResourceType is a uint8 whose upper three bits belong to the reference function. */
  type ResourceType = t: int | 0 <= t < 256

  const RESOURCE_MAX := 0x1F

  const CONTENT: ResourceType := 1
  const SNAPSHOT: ResourceType := 2
  const CONTAINER: ResourceType := 3
  const IMAGE: ResourceType := 5
  const LEASE: ResourceType := 6
  const INGEST: ResourceType := 7

  /** The flat variants set bit 0x20. */
  const CONTENT_FLAT: ResourceType := CONTENT + 0x20
  const SNAPSHOT_FLAT: ResourceType := SNAPSHOT + 0x20
  const IMAGE_FLAT: ResourceType := IMAGE + 0x20

  datatype Node = Node(typ: ResourceType, ns: string, key: string)

  /** Masking with RESOURCE_MAX keeps the low five bits. */
  function Strip(n: Node): Node {
    n.(typ := n.typ % (RESOURCE_MAX + 1))
  }

  type Labels = map<string, string>

  /** A label that is not there reads as the empty string. */
  function LookUp(labels: Labels, k: string): string {
    if k in labels then labels[k] else ""
  }

  const MAX_LABEL_SIZE := 4096

  predicate ValidLabels(labels: Labels) {
    forall k :: k in labels ==> |k| + |labels[k]| <= MAX_LABEL_SIZE
  }

  /** Snapshotter names are plugin ids: they hold no '/'. */
  type Snapshotter = s: string | '/' !in s witness ""

  /** The key of a snapshot node, fmt.Sprintf("%s/%s", snapshotter, name). */
  function SnapKey(ss: string, name: string): string {
    ss + ['/'] + name
  }

  /** The moment stored in an ingest's "expireat" key; Undecodable is a value UnmarshalBinary rejects. */
  datatype Expiry = NoExpiry | Undecodable | At(time: int)

  datatype Lease = Lease(
    labels: Labels,
    content: set<string>,
    snapshots: set<(Snapshotter, string)>,
    ingests: set<string>,
    images: set<string>)

  datatype Image = Image(target: Option<string>, labels: Labels)

  datatype Blob = Blob(size: int, labels: Labels)

  /** `expected` is "" when the key is absent. */
  datatype Ingest = Ingest(bref: string, expected: string, expireAt: Expiry)

  datatype Container = Container(
    labels: Labels,
    image: string,
    runtime: string,
    spec: Option<string>,
    snapshotter: string,
    snapshotKey: string,
    sandboxId: string,
    extensions: map<string, string>,
    createdAt: int,
    updatedAt: int)

  datatype Snapshot = Snapshot(parent: string, labels: Labels)

  datatype Sandbox = Sandbox(labels: Labels)

  datatype Namespace = Namespace(
    labels: Labels,
    leases: map<string, Lease>,
    images: map<string, Image>,
    blobs: map<string, Blob>,
    ingests: map<string, Ingest>,
    containers: map<string, Container>,
    snapshots: map<(Snapshotter, string), Snapshot>,
    sandboxes: map<string, Sandbox>)

  type Database = map<string, Namespace>

  const EMPTY_NAMESPACE := Namespace(map[], map[], map[], map[], map[], map[], map[], map[])

  /** A snapshot key read back by strings.Cut names the snapshot it was built from. */
  lemma SnapKeyCut(ss: string, name: string)
    requires '/' !in ss
    ensures '/' in SnapKey(ss, name)
    ensures Before(SnapKey(ss, name), '/') == ss && After(SnapKey(ss, name), '/') == name
  {
    CutJoin(ss, '/', name);
  }

  lemma SnapKeyInjective(ss: string, name: string, ss': string, name': string)
    requires '/' !in ss && '/' !in ss'
    requires SnapKey(ss, name) == SnapKey(ss', name')
    ensures ss == ss' && name == name'
  {
    SnapKeyCut(ss, name);
    SnapKeyCut(ss', name');
  }

  lemma SnapKeyJoin(key: string)
    requires '/' in key
    ensures SnapKey(Before(key, '/'), After(key, '/')) == key
  {
    var i := IndexOf(key, '/');
    assert key[..|key|] == key;
    assert key == key[..i] + [key[i]] + key[i + 1..];
  }
}
