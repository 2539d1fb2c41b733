/**
 Which label each child of a blob gets: by its media type, numbered in decimal among
 the children with the same base, and what the blob's labels are in the end.
 */
module ChildKeys {
  import opened Bytes
  import opened Records
  import opened ImageTree
  import opened ChildLabels

  /** `mt` is `t`, or `t` with "+" suffixes. */
  predicate OfType(mt: string, t: string) {
    |mt| >= |t| && mt[..|t|] == t && (|mt| == |t| || mt[|t|] == '+')
  }

  lemma OfTypeExact(mt: string, t: string)
    requires '+' !in t
    ensures BaseType(mt) == t <==> OfType(mt, t)
  {
    if |mt| > |t| && OfType(mt, t) {
      FirstIndex(mt, '+', |t|);
    }
  }

  predicate LayerType(mt: string) {
    || HasPrefix(mt, "application/vnd.oci.image.layer.")
    || OfType(mt, "application/vnd.docker.image.rootfs.diff.tar")
    || OfType(mt, "application/vnd.docker.image.rootfs.diff.tar.gzip")
    || OfType(mt, "application/vnd.docker.image.rootfs.diff.tar.zstd")
    || OfType(mt, "application/vnd.docker.image.rootfs.foreign.diff.tar")
    || OfType(mt, "application/vnd.docker.image.rootfs.foreign.diff.tar.gzip")
    || OfType(mt, "application/vnd.erofs.layer.v1")
  }

  predicate ConfigType(mt: string) {
    || mt == "application/vnd.oci.image.config.v1+json"
    || mt == "application/vnd.docker.container.image.v1+json"
    || mt == "application/vnd.containerd.container.criu.checkpoint.criu.tar"
    || mt == "application/vnd.containerd.container.checkpoint.config.v1+proto"
  }

  predicate ManifestType(mt: string) {
    || mt == "application/vnd.oci.image.manifest.v1+json"
    || mt == "application/vnd.docker.distribution.manifest.v2+json"
  }

  lemma PlainLayers()
    ensures '+' !in DOCKER_LAYER && '+' !in DOCKER_LAYER_FOREIGN && '+' !in EROFS_LAYER
  {
  }

  lemma PackedLayer(t: string, packing: string)
    requires '+' !in t && '+' !in packing
    ensures '+' !in t + packing
  {
  }

  lemma PackedLayers()
    ensures '+' !in DOCKER_LAYER_GZIP && '+' !in DOCKER_LAYER_ZSTD && '+' !in DOCKER_LAYER_FOREIGN_GZIP
  {
    PlainLayers();
    PackedLayer(DOCKER_LAYER, ".gzip");
    PackedLayer(DOCKER_LAYER, ".zstd");
    PackedLayer(DOCKER_LAYER_FOREIGN, ".gzip");
    assert DOCKER_LAYER_GZIP == DOCKER_LAYER + ".gzip" && DOCKER_LAYER_ZSTD == DOCKER_LAYER + ".zstd";
    assert DOCKER_LAYER_FOREIGN_GZIP == DOCKER_LAYER_FOREIGN + ".gzip";
  }

  lemma LayerTypeExact(mt: string)
    ensures IsLayerType(mt) <==> LayerType(mt)
  {
    hide OfType;
    hide BaseType;
    PlainLayers();
    PackedLayers();
    OfTypeExact(mt, DOCKER_LAYER);
    OfTypeExact(mt, DOCKER_LAYER_GZIP);
    OfTypeExact(mt, DOCKER_LAYER_ZSTD);
    OfTypeExact(mt, DOCKER_LAYER_FOREIGN);
    OfTypeExact(mt, DOCKER_LAYER_FOREIGN_GZIP);
    OfTypeExact(mt, EROFS_LAYER);
  }

  /** The base label by media type; a referrer has its own whatever its type. */
  lemma BaseByType(c: Descriptor)
    ensures ChildGCLabel(c) ==
      if "io.containerd.manifest.subject" in c.annotations then "containerd.io/gc.ref.content.referrer.sha256."
      else if ConfigType(c.mediaType) then "containerd.io/gc.ref.content.config"
      else if ManifestType(c.mediaType) then "containerd.io/gc.ref.content.m."
      else if LayerType(c.mediaType) then "containerd.io/gc.ref.content.l."
      else "containerd.io/gc.ref.content."
  {
    hide IsLayerType;
    hide LayerType;
    LayerTypeExact(c.mediaType);
  }

  // ---- numbering ----

  /** What a string of digits stands for. */
  function Decimal(s: string): int {
    if s == "" then 0 else 10 * Decimal(s[..|s| - 1]) + (s[|s| - 1] as int - '0' as int)
  }

  /** Numbers are written in decimal, without leading zeros. */
  lemma {:induction false} ItoaExact(n: nat)
    ensures Decimal(Itoa(n)) == n && (n > 0 ==> Itoa(n)[0] != '0')
    decreases n
  {
    var s := Itoa(n);
    if n < 10 {
      assert s[..0] == "";
    } else {
      assert s[..|s| - 1] == Itoa(n / 10);
      ItoaExact(n / 10);
      assert s[0] == Itoa(n / 10)[0];
    }
  }

  /** The children among the first n that have the base label `base`. */
  ghost function WithBase(children: seq<Descriptor>, n: nat, base: string): set<nat>
    requires n <= |children|
  {
    set i: nat | i < n && ChildGCLabel(children[i]) == base
  }

  /** The running count of a base label is how many children have it. */
  lemma {:induction false} CountExact(children: seq<Descriptor>, n: nat, base: string)
    requires n <= |children|
    ensures Count(children, n, base) == |WithBase(children, n, base)|
    decreases n
  {
    hide ChildGCLabel;
    var all := WithBase(children, n, base);
    if n > 0 {
      CountExact(children, n - 1, base);
      var fewer := WithBase(children, n - 1, base);
      assert n - 1 !in fewer;
      assert all == if ChildGCLabel(children[n - 1]) == base then fewer + {n - 1} else fewer;
    }
  }

  /**
   The key of a child: a referrer's base with the first 12 digits of its digest, none
   if the digest is malformed or shorter; otherwise its base with its number, which the
   first config does without.
   */
  lemma KeyExact(children: seq<Descriptor>, i: nat, encoded: string -> Option<string>)
    requires i < |children|
    ensures var c, base := children[i], ChildGCLabel(children[i]);
      var idx := Count(children, i, base);
      KeyAt(children, i, encoded) ==
      if "io.containerd.manifest.subject" in c.annotations then
        (if encoded(c.digest).Some? && |encoded(c.digest).value| >= 12
         then Some("containerd.io/gc.ref.content.referrer.sha256." + encoded(c.digest).value[..12]) else None)
      else if ConfigType(c.mediaType) && idx == 0 then Some("containerd.io/gc.ref.content.config")
      else Some(base + Itoa(idx))
  {
    hide LayerType;
    hide Itoa;
    BaseByType(children[i]);
  }

  // ---- the labels in the end ----

  /** The last child among the first n with the key `k`. */
  ghost predicate LastWith(children: seq<Descriptor>, n: nat, encoded: string -> Option<string>, k: string, i: nat)
    requires n <= |children|
  {
    && i < n && KeyAt(children, i, encoded) == Some(k)
    && forall j :: i < j < n ==> KeyAt(children, j, encoded) != Some(k)
  }

  /** A label has the digest of the last child with its key; there are no others. */
  lemma {:induction false} LabelsExact(children: seq<Descriptor>, n: nat, encoded: string -> Option<string>, k: string)
    returns (i: nat)
    requires n <= |children|
    ensures var labels := LabelsOf(children, n, encoded);
      if k in labels then LastWith(children, n, encoded, k, i) && labels[k] == children[i].digest
      else forall j :: 0 <= j < n ==> KeyAt(children, j, encoded) != Some(k)
    decreases n
  {
    hide KeyAt;
    i := 0;
    if n > 0 {
      if KeyAt(children, n - 1, encoded) == Some(k) {
        i := n - 1;
      } else {
        i := LabelsExact(children, n - 1, encoded, k);
      }
    }
  }

  /** The blob's other labels stay if some child got a label and go if none did; no label is empty. */
  lemma LabelledExact(stored: Labels, children: seq<Descriptor>, encoded: string -> Option<string>, k: string)
    ensures var own, labels := LabelsOf(children, |children|, encoded), Labelled(stored, children, encoded);
      && LookUp(labels, k) == (if k in own then own[k] else if own == map[] then "" else LookUp(stored, k))
      && (k in labels ==> labels[k] != "")
  {
    hide LabelsOf;
  }
}
