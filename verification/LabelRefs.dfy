/**
 The label handlers of the collector (startGCContext) and the cursor loop that
 runs them over an object's labels (sendLabelRefs).
 */
module LabelRefs {
  import opened Bytes
  import opened Records

  const GC := "containerd.io/gc."
  const LABEL_ROOT := "containerd.io/gc.root"
  const LABEL_SNAP_REF := "containerd.io/gc.ref.snapshot."
  const LABEL_CONTENT_REF := "containerd.io/gc.ref.content"
  const LABEL_IMAGE_REF := "containerd.io/gc.ref.image"
  const LABEL_CONTAINER_BREF := "containerd.io/gc.bref.container"
  const LABEL_CONTENT_BREF := "containerd.io/gc.bref.content"
  const LABEL_IMAGE_BREF := "containerd.io/gc.bref.image"
  const LABEL_SNAP_BREF := "containerd.io/gc.bref.snapshot."
  const LABEL_EXPIRE := "containerd.io/gc.expire"
  const LABEL_FLAT := "containerd.io/gc.flat"
  const LABEL_SNAP_COND := "containerd.io/gc.cond.snapshot"
  const LABEL_USED_VALUE := "containerd.io/gc.cond.value-usedat"
  const USEDAT := "usedat"

  /** A usedat condition: used less than, or more than, so long ago. */
  datatype Test = Younger(d: int) | Older(d: int)

  predicate Holds(test: Test, t: int, now: int) {
    match test
    case Younger(d) => now - t < d
    case Older(d) => now - t > d
  }

  datatype Kind =
    | Ref(typ: ResourceType)
    | SnapRef
    | BackRef(typ: ResourceType)
    | SnapBackRef
    | RootMark
    | SnapCond
    | UsedValue

  datatype Handler = Handler(key: string, kind: Kind)

  /**
   Typed reference handlers name resource types below RESOURCE_MAX that are not
   snapshots, whose keys need a snapshotter; a registered collector's label is one of them.
   */
  predicate HandlerOk(h: Handler) {
    h.kind.Ref? || h.kind.BackRef? ==> h.kind.typ <= RESOURCE_MAX && h.kind.typ != SNAPSHOT
  }

  type Handlers = hs: seq<Handler> | forall h :: h in hs ==> HandlerOk(h) witness []

  /**
   The context of one collection: its label handlers, and what it reads from
   outside the database, namely the clock and the parsers for RFC 3339 moments
   (section 5.6 of RFC 3339) and Go durations.
   */
  datatype Env =
    | Env(handlers: Handlers, now: int, parseTime: string -> Option<int>, parseDuration: string -> Option<int>)

  /** The handlers of a collection without registered collectors. */
  const HANDLERS: Handlers := [
    Handler(LABEL_CONTAINER_BREF, BackRef(CONTAINER)),
    Handler(LABEL_CONTENT_BREF, BackRef(CONTENT)),
    Handler(LABEL_IMAGE_BREF, BackRef(IMAGE)),
    Handler(LABEL_SNAP_BREF, SnapBackRef),
    Handler(LABEL_CONTENT_REF, Ref(CONTENT)),
    Handler(LABEL_IMAGE_REF, Ref(IMAGE)),
    Handler(LABEL_SNAP_REF, SnapRef),
    Handler(LABEL_ROOT, RootMark),
    Handler(LABEL_SNAP_COND, SnapCond),
    Handler(LABEL_USED_VALUE, UsedValue)]

  /** A call made on one of the callbacks in labelRefCallbacks. */
  datatype Call =
    | CallRef(n: Node)
    | CallBackRef(n: Node)
    | CallRoot
    | CallCond(n: Node, test: Test)
    | CallValue(time: int)

  /** Which callbacks are set. */
  datatype Callbacks = Callbacks(fn: bool, bref: bool, root: bool, cond: bool, condVal: bool)

  /** A handler whose own callback is nil is skipped. */
  predicate Skipped(h: Handler, cb: Callbacks) {
    match h.kind
    case Ref(_) => !cb.fn
    case SnapRef => !cb.fn
    case BackRef(_) => !cb.bref
    case SnapBackRef => !cb.bref
    case RootMark => false
    case SnapCond => !cb.cond
    case UsedValue => !cb.condVal
  }

  /** The key is the handler's own, or goes on with '.' or '/'. */
  predicate NamedRef(key: string, k: string)
    requires HasPrefix(k, key)
  {
    |k| == |key| || k[|key|] == '.' || k[|key|] == '/'
  }

  function TrimLeft(s: string): string {
    if s != [] && (s[0] == '.' || s[0] == '/') then TrimLeft(s[1..]) else s
  }

  function Split(s: string, c: char): seq<string>
    decreases |s|
  {
    if c in s then
      assert s[..|s|] == s;
      [Before(s, c)] + Split(After(s, c), c)
    else [s]
  }

  predicate IsOperator(c: char) {
    c == '!' || c == '<' || c == '>' || c == '='
  }

  function OperatorIndex(s: string): (i: nat)
    ensures i <= |s|
    ensures i < |s| ==> IsOperator(s[i])
  {
    if s == [] || IsOperator(s[0]) then 0 else 1 + OperatorIndex(s[1..])
  }

  /** One condition of a conditional label: only usedat with a bare '<' or '>' counts. */
  function ParseCondition(c: string, env: Env): Option<Test> {
    var i := OperatorIndex(c);
    if i == |c| || c[..i] != USEDAT then None else
    var rest := c[i + 1..];
    var twoChar := rest != [] && rest[0] == '=';
    match env.parseDuration(if twoChar then rest[1..] else rest)
    case None => None
    case Some(d) =>
      if twoChar then None
      else if c[i] == '<' then Some(Younger(d))
      else if c[i] == '>' then Some(Older(d))
      else None
  }

  function CondCalls(n: Node, conds: seq<string>, env: Env): seq<Call> {
    if conds == [] then [] else
      (match ParseCondition(conds[0], env)
       case Some(t) => [CallCond(n, t)]
       case None => []) + CondCalls(n, conds[1..], env)
  }

  /** The calls a handler makes for one label that starts with its key. */
  function Fire(h: Handler, ns: string, k: string, v: string, cb: Callbacks, env: Env): seq<Call>
    requires HasPrefix(k, h.key)
  {
    var rest := k[|h.key|..];
    match h.kind
    case Ref(t) => if NamedRef(h.key, k) then [CallRef(Node(t, ns, v))] else []
    case BackRef(t) => if NamedRef(h.key, k) then [CallBackRef(Node(t, ns, v))] else []
    case SnapRef => [CallRef(Node(SNAPSHOT, ns, SnapKey(Before(rest, '/'), v)))]
    case SnapBackRef => [CallBackRef(Node(SNAPSHOT, ns, SnapKey(Before(rest, '/'), v)))]
    case RootMark => if cb.root then [CallRoot] else []
    case SnapCond =>
      if '|' !in v then [] else
        var n := Node(SNAPSHOT, ns, SnapKey(Before(TrimLeft(rest), '/'), After(v, '|')));
        CondCalls(n, Split(Before(v, '|'), ','), env)
    case UsedValue =>
      (match env.parseTime(v)
       case Some(t) => [CallValue(t)]
       case None => [])
  }

  /** The plain reading of one handler: filter all the labels by prefix, in key order. */
  function Filtered(h: Handler, ns: string, keys: seq<string>, labels: Labels, cb: Callbacks, env: Env): seq<Call>
    requires forall k :: k in keys ==> k in labels
  {
    if keys == [] then [] else
      var k := keys[|keys| - 1];
      Filtered(h, ns, keys[..|keys| - 1], labels, cb, env) +
      if HasPrefix(k, h.key) then Fire(h, ns, k, labels[k], cb, env) else []
  }

  /** The plain reading of sendLabelRefs: every handler that is not skipped, in turn. */
  function Calls(hs: seq<Handler>, ns: string, keys: seq<string>, labels: Labels, cb: Callbacks, env: Env): seq<Call>
    requires forall k :: k in keys ==> k in labels
  {
    if hs == [] then [] else
      var h := hs[|hs| - 1];
      Calls(hs[..|hs| - 1], ns, keys, labels, cb, env) +
      if Skipped(h, cb) then [] else Filtered(h, ns, keys, labels, cb, env)
  }

  /** Which calls are made, whatever the order. */
  function CallSet(ns: string, labels: Labels, cb: Callbacks, env: Env): set<Call> {
    set h, k, c | h in env.handlers && k in labels && !Skipped(h, cb) && HasPrefix(k, h.key)
                  && c in Fire(h, ns, k, labels[k], cb, env) :: c
  }

  // ---- the cursor ----

  /** The keys of a bucket in the order a cursor visits them. */
  ghost predicate IsCursor(keys: seq<string>, labels: Labels) {
    Sorted(keys) && forall k :: k in keys <==> k in labels
  }

  /** Opens a cursor: bolt keeps a bucket's keys in byte order. */
  method OpenCursor(labels: Labels) returns (keys: seq<string>)
    ensures IsCursor(keys, labels)
  {
    keys := [];
    var todo := labels.Keys;
    while todo != {}
      invariant todo <= labels.Keys
      invariant Sorted(keys)
      invariant forall k :: k in keys <==> k in labels && k !in todo
    {
      var k :| k in todo;
      var i := Seek(keys, k);
      InsertSorted(keys, i, k);
      keys := keys[..i] + [k] + keys[i..];
      todo := todo - {k};
    }
  }

  /** Cursor.Seek: the first key that does not sort before `p`. */
  method Seek(keys: seq<string>, p: string) returns (i: nat)
    requires Sorted(keys)
    ensures i <= |keys|
    ensures forall j :: 0 <= j < i ==> Less(keys[j], p)
    ensures forall j :: i <= j < |keys| ==> !Less(keys[j], p)
  {
    i := 0;
    while i < |keys| && Less(keys[i], p)
      invariant i <= |keys|
      invariant forall j :: 0 <= j < i ==> Less(keys[j], p)
    {
      i := i + 1;
    }
    forall j | i <= j < |keys| ensures !Less(keys[j], p) {
      if i < j && Less(keys[j], p) {
        LessTransitive(keys[i], keys[j], p);
      }
    }
  }

  lemma InsertSorted(keys: seq<string>, i: nat, k: string)
    requires Sorted(keys) && k !in keys && i <= |keys|
    requires forall j :: 0 <= j < i ==> Less(keys[j], k)
    requires forall j :: i <= j < |keys| ==> !Less(keys[j], k)
    ensures Sorted(keys[..i] + [k] + keys[i..])
    ensures forall x :: x in keys[..i] + [k] + keys[i..] <==> x in keys || x == k
  {
    forall j | i <= j < |keys| ensures Less(k, keys[j]) {
      LessTotal(k, keys[j]);
    }
    forall x | x in keys ensures x in keys[..i] + [k] + keys[i..] {
      assert x in keys[..i] || x in keys[i..] by { assert keys == keys[..i] + keys[i..]; }
    }
    assert (keys[..i] + [k] + keys[i..])[i] == k;
  }

  /** One handler: seek to its key, then go on while the prefix lasts. */
  method RunHandler(h: Handler, ns: string, keys: seq<string>, labels: Labels, cb: Callbacks, env: Env)
    returns (sent: seq<Call>)
    requires IsCursor(keys, labels)
    ensures sent == Filtered(h, ns, keys, labels, cb, env)
  {
    hide Fire;
    hide Less;
    var j := Seek(keys, h.key);
    SkippedHead(h, ns, keys, j, labels, cb, env);
    sent := [];
    while j < |keys| && HasPrefix(keys[j], h.key)
      invariant j <= |keys|
      invariant forall m :: j <= m < |keys| ==> !Less(keys[m], h.key)
      invariant sent == Filtered(h, ns, keys[..j], labels, cb, env)
    {
      assert keys[..j + 1][..j] == keys[..j];
      sent := sent + Fire(h, ns, keys[j], labels[keys[j]], cb, env);
      j := j + 1;
    }
    SkippedTail(h, ns, keys, j, labels, cb, env);
  }

  /** The loop of sendLabelRefs makes exactly the calls of the plain filter, in the same order. */
  method SendLabelRefs(ns: string, keys: seq<string>, labels: Labels, cb: Callbacks, hs: seq<Handler>, env: Env)
    returns (sent: seq<Call>)
    requires IsCursor(keys, labels)
    ensures sent == Calls(hs, ns, keys, labels, cb, env)
  {
    sent := [];
    for i := 0 to |hs|
      invariant sent == Calls(hs[..i], ns, keys, labels, cb, env)
    {
      assert hs[..i + 1][..i] == hs[..i];
      if !Skipped(hs[i], cb) {
        var more := RunHandler(hs[i], ns, keys, labels, cb, env);
        sent := sent + more;
      }
    }
    assert hs[..|hs|] == hs;
  }

  /** Keys without the prefix add nothing to the filter. */
  lemma {:induction false} FilteredSkips(h: Handler, ns: string, keys: seq<string>, j: nat, labels: Labels,
                                         cb: Callbacks, env: Env)
    requires j <= |keys| && forall k :: k in keys ==> k in labels
    requires forall m :: j <= m < |keys| ==> !HasPrefix(keys[m], h.key)
    ensures Filtered(h, ns, keys[..j], labels, cb, env) == Filtered(h, ns, keys, labels, cb, env)
    decreases |keys|
  {
    if j == |keys| {
      assert keys[..j] == keys;
    } else {
      var last := |keys| - 1;
      FilteredSkips(h, ns, keys[..last], j, labels, cb, env);
      assert keys[..last][..j] == keys[..j];
      assert !HasPrefix(keys[last], h.key);
    }
  }

  /** No key before the seek position carries the prefix. */
  lemma SkippedHead(h: Handler, ns: string, keys: seq<string>, j: nat, labels: Labels, cb: Callbacks, env: Env)
    requires j <= |keys| && forall k :: k in keys ==> k in labels
    requires forall m :: 0 <= m < j ==> Less(keys[m], h.key)
    ensures Filtered(h, ns, keys[..j], labels, cb, env) == []
  {
    forall m | 0 <= m < j ensures !HasPrefix(keys[..j][m], h.key) {
      if HasPrefix(keys[m], h.key) {
        PrefixNotLess(keys[m], h.key);
      }
    }
    FilteredSkips(h, ns, keys[..j], 0, labels, cb, env);
  }

  /** No key after the first one without the prefix carries it. */
  lemma SkippedTail(h: Handler, ns: string, keys: seq<string>, j: nat, labels: Labels, cb: Callbacks, env: Env)
    requires Sorted(keys) && j <= |keys| && forall k :: k in keys ==> k in labels
    requires j < |keys| ==> !Less(keys[j], h.key) && !HasPrefix(keys[j], h.key)
    ensures Filtered(h, ns, keys[..j], labels, cb, env) == Filtered(h, ns, keys, labels, cb, env)
  {
    forall m | j <= m < |keys| ensures !HasPrefix(keys[m], h.key) {
      if j < m && HasPrefix(keys[m], h.key) {
        PrefixContiguous(h.key, keys[j], keys[m]);
      }
    }
    FilteredSkips(h, ns, keys, j, labels, cb, env);
  }

  // ---- the calls as a set ----

  lemma {:induction false} FilteredMembers(h: Handler, ns: string, keys: seq<string>, labels: Labels, cb: Callbacks,
                                           env: Env, c: Call)
    requires forall k :: k in keys ==> k in labels
    ensures c in Filtered(h, ns, keys, labels, cb, env)
      <==> exists k :: k in keys && HasPrefix(k, h.key) && c in Fire(h, ns, k, labels[k], cb, env)
    decreases |keys|
  {
    if keys != [] {
      var last := |keys| - 1;
      FilteredMembers(h, ns, keys[..last], labels, cb, env, c);
      assert keys == keys[..last] + [keys[last]];
    }
  }

  lemma {:induction false} CallsMembers(hs: seq<Handler>, ns: string, keys: seq<string>, labels: Labels,
                                        cb: Callbacks, env: Env, c: Call)
    requires forall k :: k in keys ==> k in labels
    ensures c in Calls(hs, ns, keys, labels, cb, env)
      <==> exists h :: h in hs && !Skipped(h, cb) && c in Filtered(h, ns, keys, labels, cb, env)
    decreases |hs|
  {
    if hs != [] {
      var last := |hs| - 1;
      CallsMembers(hs[..last], ns, keys, labels, cb, env, c);
      assert hs == hs[..last] + [hs[last]];
    }
  }

  /** The cursor loop over all handlers makes the calls of CallSet and no others. */
  lemma CallsAreCallSet(ns: string, keys: seq<string>, labels: Labels, cb: Callbacks, env: Env)
    requires IsCursor(keys, labels)
    ensures forall c :: c in Calls(env.handlers, ns, keys, labels, cb, env) <==> c in CallSet(ns, labels, cb, env)
  {
    forall c ensures c in Calls(env.handlers, ns, keys, labels, cb, env) <==> c in CallSet(ns, labels, cb, env) {
      CallsMembers(env.handlers, ns, keys, labels, cb, env, c);
      forall h | h in env.handlers {
        FilteredMembers(h, ns, keys, labels, cb, env, c);
      }
    }
  }
}
