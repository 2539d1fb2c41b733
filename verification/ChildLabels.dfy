/**
 SetChildrenLabels: a blob is labelled with the digests of its children, and the
 collector reads the children back from those labels.
 */
module ChildLabels {
  import opened Bytes
  import opened Records
  import opened LabelRefs
  import opened MarkSpec
  import opened CollectorLaws
  import ContentTx
  import opened ImageTree

  const ANNOTATION_MANIFEST_SUBJECT := "io.containerd.manifest.subject"

  const DOCKER_LAYER := "application/vnd.docker.image.rootfs.diff.tar"
  const DOCKER_LAYER_FOREIGN := "application/vnd.docker.image.rootfs.foreign.diff.tar"
  const DOCKER_LAYER_GZIP := "application/vnd.docker.image.rootfs.diff.tar.gzip"
  const DOCKER_LAYER_ZSTD := "application/vnd.docker.image.rootfs.diff.tar.zstd"
  const DOCKER_LAYER_FOREIGN_GZIP := "application/vnd.docker.image.rootfs.foreign.diff.tar.gzip"
  const DOCKER_CONFIG := "application/vnd.docker.container.image.v1+json"
  const DOCKER_MANIFEST := "application/vnd.docker.distribution.manifest.v2+json"
  const CHECKPOINT := "application/vnd.containerd.container.criu.checkpoint.criu.tar"
  const CHECKPOINT_CONFIG := "application/vnd.containerd.container.checkpoint.config.v1+proto"
  const EROFS_LAYER := "application/vnd.erofs.layer.v1"
  const OCI_MANIFEST := "application/vnd.oci.image.manifest.v1+json"
  const OCI_CONFIG := "application/vnd.oci.image.config.v1+json"
  const OCI_LAYER_PREFIX := "application/vnd.oci.image.layer."

  const BASE_REFERRER := "containerd.io/gc.ref.content.referrer.sha256."
  const BASE_CONFIG := "containerd.io/gc.ref.content.config"
  const BASE_MANIFEST := "containerd.io/gc.ref.content.m."
  const BASE_LAYER := "containerd.io/gc.ref.content.l."
  const BASE_OTHER := "containerd.io/gc.ref.content."

  const REFERRER_DIGEST_LEN := 12

  /** parseMediaTypes: the media type without its "+" suffixes. */
  function BaseType(mt: string): string {
    Before(mt, '+')
  }

  predicate IsLayerType(mt: string) {
    || HasPrefix(mt, OCI_LAYER_PREFIX)
    || BaseType(mt) in [
         DOCKER_LAYER, DOCKER_LAYER_GZIP, DOCKER_LAYER_FOREIGN, DOCKER_LAYER_FOREIGN_GZIP,
         DOCKER_LAYER_ZSTD, EROFS_LAYER]
  }

  predicate IsKnownConfig(mt: string) {
    mt in [DOCKER_CONFIG, OCI_CONFIG, CHECKPOINT, CHECKPOINT_CONFIG]
  }

  predicate IsReferrer(c: Descriptor) {
    ANNOTATION_MANIFEST_SUBJECT in c.annotations
  }

  /** ChildGCLabels: the one label a child gets by default, before it is numbered. */
  function ChildGCLabel(c: Descriptor): (base: string)
    ensures base == BASE_REFERRER <==> IsReferrer(c)
    ensures base in [BASE_REFERRER, BASE_CONFIG, BASE_MANIFEST, BASE_LAYER, BASE_OTHER]
  {
    DistinctBases();
    if IsReferrer(c) then BASE_REFERRER
    else if IsKnownConfig(c.mediaType) then BASE_CONFIG
    else if c.mediaType in [DOCKER_MANIFEST, OCI_MANIFEST] then BASE_MANIFEST
    else if IsLayerType(c.mediaType) then BASE_LAYER
    else BASE_OTHER
  }

  /** The character after the common prefix tells the bases apart; BASE_OTHER goes on with a digit. */
  lemma DistinctBases()
    ensures var n := |LABEL_CONTENT_REF| + 1;
      && |BASE_OTHER| == n && BASE_REFERRER[n] == 'r'
      && BASE_CONFIG[n] == 'c' && BASE_MANIFEST[n] == 'm' && BASE_LAYER[n] == 'l'
  {
  }

  // ---- numbering ----

  predicate IsDigit(c: char) {
    '0' <= c <= '9'
  }

  function Digit(n: nat): (c: char)
    requires n < 10
    ensures IsDigit(c)
  {
    '0' + n as char
  }

  /** fmt's %d of a natural number. */
  function Itoa(n: nat): (s: string)
    ensures s != "" && forall c :: c in s ==> IsDigit(c)
    ensures n >= 10 ==> |s| >= 2
    ensures n < 10 ==> |s| == 1
  {
    if n < 10 then [Digit(n)] else Itoa(n / 10) + [Digit(n % 10)]
  }

  lemma {:induction false} ItoaInjective(n: nat, m: nat)
    requires Itoa(n) == Itoa(m)
    ensures n == m
    decreases n
  {
    if n >= 10 {
      var s, t := Itoa(n), Itoa(m);
      assert s[..|s| - 1] == Itoa(n / 10) && t[..|t| - 1] == Itoa(m / 10);
      assert s[|s| - 1] == Digit(n % 10) && t[|t| - 1] == Digit(m % 10);
      ItoaInjective(n / 10, m / 10);
    }
  }

  function Numbered(base: string, idx: nat): string
    requires base != ""
  {
    if idx > 0 || base[|base| - 1] == '.' then base + Itoa(idx) else base
  }

  /** How many of the first n children have the base label `base`. */
  function Count(children: seq<Descriptor>, n: nat, base: string): nat
    requires n <= |children|
  {
    if n == 0 then 0 else Count(children, n - 1, base) + if ChildGCLabel(children[n - 1]) == base then 1 else 0
  }

  lemma CountNone(children: seq<Descriptor>)
    ensures forall base :: Count(children, 0, base) == 0
  {
  }

  lemma {:induction false} CountGrows(children: seq<Descriptor>, n: nat, m: nat, base: string)
    requires n <= m <= |children|
    ensures Count(children, n, base) <= Count(children, m, base)
    decreases m
  {
    hide ChildGCLabel;
    if n < m {
      CountGrows(children, n, m - 1, base);
    }
  }

  /** The label key of the i-th child; a referrer whose digest is malformed or short has none. */
  function KeyAt(children: seq<Descriptor>, i: nat, encoded: string -> Option<string>): Option<string>
    requires i < |children|
  {
    var base := ChildGCLabel(children[i]);
    if base == BASE_REFERRER then
      match encoded(children[i].digest)
      case None => None
      case Some(e) => if |e| < REFERRER_DIGEST_LEN then None else Some(base + e[..REFERRER_DIGEST_LEN])
    else Some(Numbered(base, Count(children, i, base)))
  }

  function Tag(key: string): Option<char> {
    if |key| > |LABEL_CONTENT_REF| + 1 then Some(key[|LABEL_CONTENT_REF| + 1]) else None
  }

  predicate Tagged(base: string, key: string) {
    if base == BASE_OTHER then Tag(key).Some? && IsDigit(Tag(key).value)
    else |base| > |LABEL_CONTENT_REF| + 1 && Tag(key) == Some(base[|LABEL_CONTENT_REF| + 1])
  }

  lemma NumberedTag(base: string, idx: nat)
    requires base in [BASE_CONFIG, BASE_MANIFEST, BASE_LAYER, BASE_OTHER]
    ensures Tagged(base, Numbered(base, idx))
  {
    var s := Itoa(idx);
    assert s[0] in s;
  }

  lemma TagTellsBase(base: string, base': string, key: string)
    requires base in [BASE_REFERRER, BASE_CONFIG, BASE_MANIFEST, BASE_LAYER, BASE_OTHER]
    requires base' in [BASE_REFERRER, BASE_CONFIG, BASE_MANIFEST, BASE_LAYER, BASE_OTHER]
    requires Tagged(base, key) && Tagged(base', key)
    ensures base == base'
  {
    DistinctBases();
  }

  lemma NumberedInjective(base: string, n: nat, m: nat)
    requires base != "" && Numbered(base, n) == Numbered(base, m)
    ensures n == m
  {
    var dot := base[|base| - 1] == '.';
    if (n > 0 || dot) && (m > 0 || dot) {
      assert (base + Itoa(n))[|base|..] == Itoa(n) && (base + Itoa(m))[|base|..] == Itoa(m);
      ItoaInjective(n, m);
    }
  }

  lemma KeyTag(children: seq<Descriptor>, i: nat, encoded: string -> Option<string>)
    requires i < |children| && KeyAt(children, i, encoded).Some?
    ensures Tagged(ChildGCLabel(children[i]), KeyAt(children, i, encoded).value)
  {
    var base := ChildGCLabel(children[i]);
    if base != BASE_REFERRER {
      NumberedTag(base, Count(children, i, base));
    }
  }

  lemma HasKey(children: seq<Descriptor>, i: nat, encoded: string -> Option<string>)
    requires i < |children| && !IsReferrer(children[i])
    ensures var base := ChildGCLabel(children[i]);
      base != "" && KeyAt(children, i, encoded) == Some(Numbered(base, Count(children, i, base)))
  {
  }

  /** A child that is not a referrer shares its label key with no other child. */
  lemma KeysDistinct(children: seq<Descriptor>, i: nat, j: nat, encoded: string -> Option<string>)
    requires i < j < |children| && (!IsReferrer(children[i]) || !IsReferrer(children[j]))
    requires KeyAt(children, i, encoded).Some? && KeyAt(children, j, encoded).Some?
    ensures KeyAt(children, i, encoded) != KeyAt(children, j, encoded)
  {
    hide KeyAt;
    hide Tagged;
    hide ChildGCLabel;
    if KeyAt(children, i, encoded) == KeyAt(children, j, encoded) {
      var base := ChildGCLabel(children[i]);
      KeyTag(children, i, encoded);
      KeyTag(children, j, encoded);
      TagTellsBase(base, ChildGCLabel(children[j]), KeyAt(children, i, encoded).value);
      HasKey(children, i, encoded);
      HasKey(children, j, encoded);
      NumberedInjective(base, Count(children, i, base), Count(children, j, base));
      CountGrows(children, i + 1, j, base);
    }
  }

  // ---- the wrapper's loop ----

  /** The labels of the first n children; of two children with one key the later one has it. */
  function LabelsOf(children: seq<Descriptor>, n: nat, encoded: string -> Option<string>): Labels
    requires n <= |children|
  {
    if n == 0 then map[] else
      var labels := LabelsOf(children, n - 1, encoded);
      match KeyAt(children, n - 1, encoded)
      case Some(key) => labels[key := children[n - 1].digest]
      case None => labels
  }

  function FieldPath(key: string): string {
    "labels." + key
  }

  function FieldsOf(children: seq<Descriptor>, n: nat, encoded: string -> Option<string>): seq<string>
    requires n <= |children|
  {
    if n == 0 then [] else
      FieldsOf(children, n - 1, encoded) +
      match KeyAt(children, n - 1, encoded)
      case Some(key) => [FieldPath(key)]
      case None => []
  }

  /** Builds the labels and the field paths to update. */
  method LabelChildren(children: seq<Descriptor>, encoded: string -> Option<string>)
    returns (labels: Labels, fields: seq<string>)
    ensures labels == LabelsOf(children, |children|, encoded) && fields == FieldsOf(children, |children|, encoded)
  {
    hide KeyAt;
    hide Count;
    CountNone(children);
    labels, fields := map[], [];
    var keys: map<string, nat> := map[];
    var i := 0;
    while i < |children|
      invariant 0 <= i <= |children|
      invariant forall base :: (if base in keys then keys[base] else 0) == Count(children, i, base)
      invariant labels == LabelsOf(children, i, encoded) && fields == FieldsOf(children, i, encoded)
    {
      var key;
      key, keys := NextKey(children, i, keys, encoded);
      if key.Some? {
        labels := labels[key.value := children[i].digest];
        fields := fields + [FieldPath(key.value)];
      }
      i := i + 1;
    }
  }

  /** The key of the i-th child, by the running counts of the base labels. */
  method NextKey(children: seq<Descriptor>, i: nat, counts: map<string, nat>, encoded: string -> Option<string>)
    returns (key: Option<string>, keys: map<string, nat>)
    requires i < |children|
    requires forall base :: (if base in counts then counts[base] else 0) == Count(children, i, base)
    ensures key == KeyAt(children, i, encoded)
    ensures forall base :: (if base in keys then keys[base] else 0) == Count(children, i + 1, base)
  {
    hide Itoa;
    var c := children[i];
    var base := ChildGCLabel(c);
    var idx := if base in counts then counts[base] else 0;
    keys := counts[base := idx + 1];
    if base == BASE_REFERRER {
      var e := encoded(c.digest);
      if e.None? || |e.value| < REFERRER_DIGEST_LEN {
        return None, keys;
      }
      key := Some(base + e.value[..REFERRER_DIGEST_LEN]);
    } else if idx > 0 || base[|base| - 1] == '.' {
      key := Some(base + Itoa(idx));
    } else {
      key := Some(base);
    }
  }

  lemma FieldPathPrefix(key: string)
    ensures HasPrefix(FieldPath(key), "labels.") && FieldPath(key)[|"labels."|..] == key
  {
  }

  /** The field paths are those of the labels. */
  lemma {:induction false} FieldsAreLabels(children: seq<Descriptor>, n: nat, encoded: string -> Option<string>)
    requires n <= |children|
    ensures forall k :: k in LabelsOf(children, n, encoded) ==> FieldPath(k) in FieldsOf(children, n, encoded)
    ensures forall f :: f in FieldsOf(children, n, encoded) ==>
      HasPrefix(f, "labels.") && f[|"labels."|..] in LabelsOf(children, n, encoded)
    decreases n
  {
    hide KeyAt;
    hide HasPrefix;
    if n > 0 {
      FieldsAreLabels(children, n - 1, encoded);
      var key := KeyAt(children, n - 1, encoded);
      if key.Some? {
        FieldPathPrefix(key.value);
      }
    }
  }

  /** A child that is not a referrer keeps the label it was given. */
  lemma {:induction false} LabelStays(children: seq<Descriptor>, i: nat, n: nat, encoded: string -> Option<string>)
    requires i < n <= |children| && !IsReferrer(children[i])
    ensures KeyAt(children, i, encoded).Some?
    ensures var key, labels := KeyAt(children, i, encoded).value, LabelsOf(children, n, encoded);
      key in labels && labels[key] == children[i].digest
    decreases n
  {
    hide KeyAt;
    hide Numbered;
    hide ChildGCLabel;
    HasKey(children, i, encoded);
    if i < n - 1 {
      LabelStays(children, i, n - 1, encoded);
      if KeyAt(children, n - 1, encoded).Some? {
        KeysDistinct(children, i, n - 1, encoded);
      }
    }
  }

  /** Every key the wrapper writes is one the content reference handler reads. */
  lemma {:induction false} KeysAreRefs(children: seq<Descriptor>, n: nat, encoded: string -> Option<string>)
    requires n <= |children|
    ensures forall k :: k in LabelsOf(children, n, encoded) ==>
      HasPrefix(k, LABEL_CONTENT_REF) && NamedRef(LABEL_CONTENT_REF, k)
    decreases n
  {
    if n > 0 {
      KeysAreRefs(children, n - 1, encoded);
      KeyIsRef(children, n - 1, encoded);
    }
  }

  lemma KeyIsRef(children: seq<Descriptor>, i: nat, encoded: string -> Option<string>)
    requires i < |children|
    ensures KeyAt(children, i, encoded).Some? ==>
      var k := KeyAt(children, i, encoded).value; HasPrefix(k, LABEL_CONTENT_REF) && NamedRef(LABEL_CONTENT_REF, k)
  {
    var base := ChildGCLabel(children[i]);
    assert HasPrefix(base, LABEL_CONTENT_REF) && |base| > |LABEL_CONTENT_REF| && base[|LABEL_CONTENT_REF|] == '.';
    if KeyAt(children, i, encoded).Some? {
      var k := KeyAt(children, i, encoded).value;
      assert base <= k;
    }
  }

  // ---- contentStore.Update ----

  /** What the field paths make of the stored labels. */
  function Masked(stored: Labels, info: Labels, paths: seq<string>): Result<Labels> {
    if paths == [] then Ok(stored) else
      var path := paths[|paths| - 1];
      match Masked(stored, info, paths[..|paths| - 1])
      case Err(e) => Err(e)
      case Ok(labels) =>
        if HasPrefix(path, "labels.") then
          var k := path[|"labels."|..];
          Ok(labels[k := LookUp(info, k)])
        else if path == "labels" then Ok(info)
        else Err("cannot update field")
  }

  /**
   The loop over the field paths; no field paths at all stand for replacing the labels.
   A label ends as it is given exactly if it is named, or all are; empty ones go.
   */
  method UpdateLabels(stored: Labels, info: Labels, paths: seq<string>) returns (r: Result<Labels>)
    ensures r.Ok? ==> forall k ::
      LookUp(r.value, k) ==
      LookUp(if paths == [] || "labels" in paths || FieldPath(k) in paths then info else stored, k)
    ensures r.Ok? ==> forall k :: k in r.value ==> r.value[k] != "" && |k| + |r.value[k]| <= 4096
    ensures r.Ok? ==> forall f :: f in paths ==> f == "labels" || HasPrefix(f, "labels.")
    ensures r ==
      match if paths == [] then Ok(info) else Masked(stored, info, paths)
      case Err(e) => Err(e)
      case Ok(labels) => if ValidLabels(labels) then Ok(ContentTx.WrittenLabels(labels)) else Err("label too long")
  {
    var updated := stored;
    if |paths| > 0 {
      for i := 0 to |paths|
        invariant Masked(stored, info, paths[..i]) == Ok(updated)
      {
        assert paths[..i + 1][..i] == paths[..i];
        if HasPrefix(paths[i], "labels.") {
          var k := paths[i][|"labels."|..];
          updated := updated[k := LookUp(info, k)];
        } else if paths[i] == "labels" {
          updated := info;
        } else {
          MaskedStops(stored, info, paths, i + 1);
          return Err("cannot update field");
        }
      }
      assert paths[..|paths|] == paths;
      MaskedExact(stored, info, paths);
    } else {
      updated := info;
    }
    if !ValidLabels(updated) {
      return Err("label too long");
    }
    r := Ok(ContentTx.WrittenLabels(updated));
    assert forall k :: LookUp(r.value, k) == LookUp(updated, k);
  }

  /** Which paths are known, and where each label comes from. */
  lemma {:induction false} MaskedExact(stored: Labels, info: Labels, paths: seq<string>)
    ensures Masked(stored, info, paths).Ok? <==> forall f :: f in paths ==> f == "labels" || HasPrefix(f, "labels.")
    ensures Masked(stored, info, paths).Ok? ==>
      forall k :: LookUp(Masked(stored, info, paths).value, k) ==
        LookUp(if "labels" in paths || FieldPath(k) in paths then info else stored, k)
    decreases |paths|
  {
    if paths != [] {
      var n := |paths| - 1;
      MaskedExact(stored, info, paths[..n]);
      assert paths == paths[..n] + [paths[n]];
      forall k ensures HasPrefix(FieldPath(k), "labels.") && FieldPath(k)[|"labels."|..] == k {
        FieldPathPrefix(k);
      }
      if HasPrefix(paths[n], "labels.") {
        assert paths[n] == FieldPath(paths[n][|"labels."|..]);
      }
    }
  }

  lemma {:induction false} MaskedStops(stored: Labels, info: Labels, paths: seq<string>, n: nat)
    requires n <= |paths| && Masked(stored, info, paths[..n]).Err?
    ensures Masked(stored, info, paths) == Masked(stored, info, paths[..n])
    decreases |paths| - n
  {
    if n < |paths| {
      assert paths[..n + 1][..n] == paths[..n];
      MaskedStops(stored, info, paths, n + 1);
    } else {
      assert paths[..n] == paths;
    }
  }

  /** Paths to single labels overwrite those and leave the rest. */
  lemma {:induction false} MaskedLabels(stored: Labels, info: Labels, paths: seq<string>)
    requires forall f :: f in paths ==> HasPrefix(f, "labels.") && f[|"labels."|..] in info
    ensures Masked(stored, info, paths).Ok?
    ensures var labels := Masked(stored, info, paths).value;
      && (forall k :: k in labels ==> k in stored || (k in info && FieldPath(k) in paths))
      && (forall k :: k in info && FieldPath(k) in paths ==> k in labels && labels[k] == info[k])
      && (forall k :: k in stored && FieldPath(k) !in paths ==> k in labels && labels[k] == stored[k])
    decreases |paths|
  {
    if paths != [] {
      var n := |paths| - 1;
      MaskedLabels(stored, info, paths[..n]);
      assert paths[n] in paths;
      var k := paths[n][|"labels."|..];
      assert FieldPath(k) == paths[n];
      assert paths == paths[..n] + [paths[n]];
      forall j | FieldPath(j) == paths[n] ensures j == k {
        FieldPathPrefix(j);
      }
    }
  }

  // ---- the wrapper ----

  function Relabelled(db: Database, ns: string, digest: string, labels: Labels): Database
    requires ns in db && digest in db[ns].blobs
  {
    db[ns := db[ns].(blobs := db[ns].blobs[digest := db[ns].blobs[digest].(labels := labels)])]
  }

  /**
   SetChildrenLabels on a blob of a namespace. Nothing is labelled without
   children. If children there are but none of them yields a label, Update gets
   no field paths and takes the empty label set for the new one.
   */
  method SetChildrenLabels(db: Database, ns: string, digest: string, children: seq<Descriptor>,
                           encoded: string -> Option<string>)
    returns (r: Result<Database>)
    ensures children == [] ==> r == Ok(db)
    ensures children != [] && (ns !in db || digest !in db[ns].blobs) ==> r.Err?
    ensures children != [] && ns in db && digest in db[ns].blobs ==>
      var labels := Overlay(db[ns].blobs[digest].labels, LabelsOf(children, |children|, encoded));
      if ValidLabels(labels) then r == Ok(Relabelled(db, ns, digest, ContentTx.WrittenLabels(labels))) else r.Err?
  {
    hide LabelsOf;
    hide FieldsOf;
    hide Masked;
    hide Overlay;
    hide ValidLabels;
    hide Relabelled;
    if |children| == 0 {
      return Ok(db);
    }
    var labels, fields := LabelChildren(children, encoded);
    if ns !in db || digest !in db[ns].blobs {
      return Err("content digest not found");
    }
    var b := db[ns].blobs[digest];
    UpdateLabelled(b.labels, children, encoded);
    var updated := UpdateLabels(b.labels, labels, fields);
    if updated.Err? {
      return Err(updated.error);
    }
    r := Ok(Relabelled(db, ns, digest, updated.value));
  }

  /** The labels `own` written over `stored`; an empty `own` takes its place. */
  function Overlay(stored: Labels, own: Labels): Labels {
    if own == map[] then own else stored + own
  }

  /** The labels a blob has after its children were labelled. */
  function Labelled(stored: Labels, children: seq<Descriptor>, encoded: string -> Option<string>): Labels {
    ContentTx.WrittenLabels(Overlay(stored, LabelsOf(children, |children|, encoded)))
  }

  lemma MaskOverlays(stored: Labels, own: Labels, paths: seq<string>)
    requires paths != [] && forall f :: f in paths ==> HasPrefix(f, "labels.") && f[|"labels."|..] in own
    requires forall k :: k in own ==> FieldPath(k) in paths
    ensures Masked(stored, own, paths) == Ok(Overlay(stored, own))
  {
    hide Masked;
    MaskedLabels(stored, own, paths);
    OnlyLabelPaths(own, paths);
    assert paths[0] in paths;
    assert paths[0][|"labels."|..] in own;
    assert Masked(stored, own, paths).value == stored + own;
  }

  lemma UpdateLabelled(stored: Labels, children: seq<Descriptor>, encoded: string -> Option<string>)
    ensures var own, paths := LabelsOf(children, |children|, encoded), FieldsOf(children, |children|, encoded);
      (if paths == [] then Ok(own) else Masked(stored, own, paths)) == Ok(Overlay(stored, own))
  {
    hide LabelsOf;
    hide FieldsOf;
    hide HasPrefix;
    FieldsAreLabels(children, |children|, encoded);
    var own, paths := LabelsOf(children, |children|, encoded), FieldsOf(children, |children|, encoded);
    if paths != [] {
      MaskOverlays(stored, own, paths);
    } else {
      assert own.Keys == {};
    }
  }

  /** A label path in `paths` is the path of one of the labels. */
  lemma OnlyLabelPaths(own: Labels, paths: seq<string>)
    requires forall f :: f in paths ==> HasPrefix(f, "labels.") && f[|"labels."|..] in own
    ensures forall k :: FieldPath(k) in paths ==> k in own
  {
    forall k | FieldPath(k) in paths ensures k in own {
      FieldPathPrefix(k);
    }
  }

  // ---- reading the labels back ----

  /**
   The collector decodes the labels to every child that is not a referrer,
   except that a child with an empty digest leaves no label.
   */
  lemma ChildDecoded(ns: string, stored: Labels, children: seq<Descriptor>, encoded: string -> Option<string>,
                     env: Env, i: nat)
    requires i < |children| && !IsReferrer(children[i])
    requires Handler(LABEL_CONTENT_REF, Ref(CONTENT)) in env.handlers
    ensures Node(CONTENT, ns, children[i].digest) in LabelTargets(ns, Labelled(stored, children, encoded), env) <==>
      children[i].digest != ""
  {
    hide KeyAt;
    hide LabelsOf;
    var h, d := Handler(LABEL_CONTENT_REF, Ref(CONTENT)), children[i].digest;
    var labels := Labelled(stored, children, encoded);
    LabelStays(children, i, |children|, encoded);
    KeysAreRefs(children, |children|, encoded);
    if d != "" {
      var k := KeyAt(children, i, encoded).value;
      assert labels[k] == d;
      assert CallRef(Node(CONTENT, ns, d)) in Fire(h, ns, k, labels[k], CB_FN, env);
      assert CallRef(Node(CONTENT, ns, d)) in CallSet(ns, labels, CB_FN, env);
    } else {
      NoEmptyTarget(ns, labels, env);
    }
  }

  /** A label with a value never refers to content without a name. */
  lemma NoEmptyTarget(ns: string, labels: Labels, env: Env)
    requires forall k :: k in labels ==> labels[k] != ""
    ensures Node(CONTENT, ns, "") !in LabelTargets(ns, labels, env)
  {
    forall h, k | h in env.handlers && k in labels && HasPrefix(k, h.key)
      ensures CallRef(Node(CONTENT, ns, "")) !in Fire(h, ns, k, labels[k], CB_FN, env)
    {
      if h.kind.SnapCond? && '|' in labels[k] {
        var rest := k[|h.key|..];
        CondCallsOnly(Node(SNAPSHOT, ns, SnapKey(Before(TrimLeft(rest), '/'), After(labels[k], '|'))),
          Split(Before(labels[k], '|'), ','), env);
      }
    }
  }

  lemma {:induction false} CondCallsOnly(n: Node, conds: seq<string>, env: Env)
    ensures forall c :: c in CondCalls(n, conds, env) ==> c.CallCond?
    decreases |conds|
  {
    if conds != [] {
      CondCallsOnly(n, conds[1..], env);
    }
  }

  /** Whenever the labelled blob is live as plain content, its children are, and no collection removes them. */
  lemma ChildrenSurvive(db: Database, env: Env, ns: string, digest: string, stored: Labels, children: seq<Descriptor>,
                        encoded: string -> Option<string>, i: nat)
    requires ns in db && digest in db[ns].blobs && db[ns].blobs[digest].labels == Labelled(stored, children, encoded)
    requires i < |children| && !IsReferrer(children[i]) && children[i].digest != ""
    requires Handler(LABEL_CONTENT_REF, Ref(CONTENT)) in env.handlers
    requires Live(db, env, Node(CONTENT, ns, digest))
    ensures Live(db, env, Node(CONTENT, ns, children[i].digest))
    ensures children[i].digest in db[ns].blobs ==> children[i].digest in Collected(db, env)[ns].blobs
  {
    hide Live;
    hide LabelTargets;
    hide Labelled;
    hide Says;
    hide Kept;
    var n, m := Node(CONTENT, ns, digest), Node(CONTENT, ns, children[i].digest);
    ChildDecoded(ns, stored, children, encoded, env, i);
    EdgeLive(db, env, n, m);
    LiveKept(db, env, m);
  }

  /** In particular with the handlers of a collection that has no registered collectors. */
  lemma ChildrenSurviveByDefault(db: Database, env: Env, ns: string, digest: string, stored: Labels,
                                 children: seq<Descriptor>, encoded: string -> Option<string>, i: nat)
    requires ns in db && digest in db[ns].blobs && db[ns].blobs[digest].labels == Labelled(stored, children, encoded)
    requires i < |children| && !IsReferrer(children[i]) && children[i].digest != ""
    requires env.handlers == HANDLERS && Live(db, env, Node(CONTENT, ns, digest))
    ensures children[i].digest in db[ns].blobs ==> children[i].digest in Collected(db, env)[ns].blobs
  {
    hide Live;
    hide Labelled;
    hide Collected;
    assert HANDLERS[4] == Handler(LABEL_CONTENT_REF, Ref(CONTENT));
    ChildrenSurvive(db, env, ns, digest, stored, children, encoded, i);
  }

  /** The labels that the wrapper leaves on the blob: without children it does not touch them. */
  function LabelsAfter(stored: Labels, children: seq<Descriptor>, encoded: string -> Option<string>): Labels {
    if children == [] then stored else Labelled(stored, children, encoded)
  }

  /** The other labels of the blob survive exactly when there are no children or some child got a label. */
  lemma StoredLabelsKept(stored: Labels, children: seq<Descriptor>, encoded: string -> Option<string>, k: string)
    requires k in stored && stored[k] != "" && k !in LabelsOf(children, |children|, encoded)
    ensures LookUp(LabelsAfter(stored, children, encoded), k) == stored[k] <==>
      children == [] || exists i: nat :: i < |children| && KeyAt(children, i, encoded).Some?
  {
    hide KeyAt;
    NoLabels(children, |children|, encoded);
  }

  lemma {:induction false} NoLabels(children: seq<Descriptor>, n: nat, encoded: string -> Option<string>)
    requires n <= |children|
    ensures LabelsOf(children, n, encoded) == map[] <==> forall i: nat :: i < n ==> KeyAt(children, i, encoded).None?
    decreases n
  {
    hide KeyAt;
    if n > 0 {
      NoLabels(children, n - 1, encoded);
      var key := KeyAt(children, n - 1, encoded);
      if key.Some? {
        assert key.value in LabelsOf(children, n, encoded);
      }
    }
  }
}
