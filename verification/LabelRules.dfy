/**
 What the labels of an object say to the collector, read off their text: the
 reference labels, back reference labels, root mark and conditions of a collection
 without registered collectors, label by label.
 */
module LabelRules {
  import opened Bytes
  import opened Records
  import opened LabelRefs
  import opened MarkSpec
  import opened CollectorLaws

  const REF_CONTENT := "containerd.io/gc.ref.content"
  const REF_IMAGE := "containerd.io/gc.ref.image"
  const REF_SNAPSHOT := "containerd.io/gc.ref.snapshot."
  const BREF_CONTAINER := "containerd.io/gc.bref.container"
  const BREF_CONTENT := "containerd.io/gc.bref.content"
  const BREF_IMAGE := "containerd.io/gc.bref.image"
  const BREF_SNAPSHOT := "containerd.io/gc.bref.snapshot."
  const ROOT := "containerd.io/gc.root"
  const EXPIRE := "containerd.io/gc.expire"
  const FLAT := "containerd.io/gc.flat"
  const COND_SNAPSHOT := "containerd.io/gc.cond.snapshot"
  const VALUE_USEDAT := "containerd.io/gc.cond.value-usedat"

  /** The label is `key` itself, or `key` with a name after '.' or '/'. */
  predicate IsNamed(k: string, key: string) {
    HasPrefix(k, key) && (|k| == |key| || k[|key|] in ['.', '/'])
  }

  /** The snapshot that a label key ending in a snapshotter, and its value, name. */
  function SnapNode(ns: string, rest: string, name: string): Node {
    Node(SNAPSHOT, ns, Before(rest, '/') + "/" + name)
  }

  predicate LabelRefers(ns: string, k: string, v: string, m: Node) {
    || (IsNamed(k, REF_CONTENT) && m == Node(CONTENT, ns, v))
    || (IsNamed(k, REF_IMAGE) && m == Node(IMAGE, ns, v))
    || (HasPrefix(k, REF_SNAPSHOT) && m == SnapNode(ns, k[|REF_SNAPSHOT|..], v))
  }

  predicate LabelRefersBack(ns: string, k: string, v: string, m: Node) {
    || (IsNamed(k, BREF_CONTAINER) && m == Node(CONTAINER, ns, v))
    || (IsNamed(k, BREF_CONTENT) && m == Node(CONTENT, ns, v))
    || (IsNamed(k, BREF_IMAGE) && m == Node(IMAGE, ns, v))
    || (HasPrefix(k, BREF_SNAPSHOT) && m == SnapNode(ns, k[|BREF_SNAPSHOT|..], v))
  }

  /** The condition `c` asks for a use less, or more, than a duration ago; other operators are not supported. */
  predicate AsksFor(c: string, test: Test, env: Env) {
    match test
    case Younger(d) =>
      HasPrefix(c, "usedat<") && !HasPrefix(c, "usedat<=") && env.parseDuration(c[|"usedat<"|..]) == Some(d)
    case Older(d) =>
      HasPrefix(c, "usedat>") && !HasPrefix(c, "usedat>=") && env.parseDuration(c[|"usedat>"|..]) == Some(d)
  }

  /** The label makes a reference to snapshot `m` depend on `test`. */
  ghost predicate LabelAsks(ns: string, k: string, v: string, m: Node, test: Test, env: Env) {
    && HasPrefix(k, COND_SNAPSHOT) && '|' in v
    && m == SnapNode(ns, TrimLeft(k[|COND_SNAPSHOT|..]), After(v, '|'))
    && exists c :: c in Split(Before(v, '|'), ',') && AsksFor(c, test, env)
  }

  ghost predicate Refers(ns: string, labels: Labels, m: Node) {
    exists k :: k in labels && LabelRefers(ns, k, labels[k], m)
  }

  ghost predicate RefersBack(ns: string, labels: Labels, m: Node) {
    exists k :: k in labels && LabelRefersBack(ns, k, labels[k], m)
  }

  ghost predicate MarkedRoot(labels: Labels) {
    exists k :: k in labels && HasPrefix(k, ROOT)
  }

  ghost predicate Asks(ns: string, labels: Labels, m: Node, test: Test, env: Env) {
    exists k :: k in labels && LabelAsks(ns, k, labels[k], m, test, env)
  }

  ghost predicate UsedAt(labels: Labels, t: int, env: Env) {
    exists k :: k in labels && HasPrefix(k, VALUE_USEDAT) && env.parseTime(labels[k]) == Some(t)
  }

  // ---- the handlers read labels this way ----

  lemma Keys()
    ensures LABEL_CONTENT_REF == REF_CONTENT && LABEL_IMAGE_REF == REF_IMAGE && LABEL_SNAP_REF == REF_SNAPSHOT
    ensures LABEL_CONTAINER_BREF == BREF_CONTAINER && LABEL_CONTENT_BREF == BREF_CONTENT
    ensures LABEL_IMAGE_BREF == BREF_IMAGE && LABEL_SNAP_BREF == BREF_SNAPSHOT
    ensures LABEL_ROOT == ROOT && LABEL_EXPIRE == EXPIRE && LABEL_FLAT == FLAT
    ensures LABEL_SNAP_COND == COND_SNAPSHOT && LABEL_USED_VALUE == VALUE_USEDAT
  {
  }

  /** The handlers of a plain collection, by what they do. */
  ghost predicate IsHandler(h: Handler) {
    match h.kind
    case Ref(t) => (t == CONTENT && h.key == REF_CONTENT) || (t == IMAGE && h.key == REF_IMAGE)
    case SnapRef => h.key == REF_SNAPSHOT
    case BackRef(t) =>
      || (t == CONTAINER && h.key == BREF_CONTAINER)
      || (t == CONTENT && h.key == BREF_CONTENT)
      || (t == IMAGE && h.key == BREF_IMAGE)
    case SnapBackRef => h.key == BREF_SNAPSHOT
    case RootMark => h.key == ROOT
    case SnapCond => h.key == COND_SNAPSHOT
    case UsedValue => h.key == VALUE_USEDAT
  }

  lemma HandlersExact(h: Handler)
    ensures h in HANDLERS <==> IsHandler(h)
  {
    Keys();
    var hs := HANDLERS;
    if h in hs {
      var i :| 0 <= i < |hs| && hs[i] == h;
      assert IsHandler(hs[0]) && IsHandler(hs[1]) && IsHandler(hs[2]) && IsHandler(hs[3]) && IsHandler(hs[4]);
      assert IsHandler(hs[5]) && IsHandler(hs[6]) && IsHandler(hs[7]) && IsHandler(hs[8]) && IsHandler(hs[9]);
    }
    if IsHandler(h) {
      assert h == hs[0] || h == hs[1] || h == hs[2] || h == hs[3] || h == hs[4]
          || h == hs[5] || h == hs[6] || h == hs[7] || h == hs[8] || h == hs[9];
    }
  }

  /** The label calls for `c` on a callback that is set. */
  ghost predicate CallSays(ns: string, k: string, v: string, cb: Callbacks, env: Env, c: Call) {
    match c
    case CallRef(m) => cb.fn && LabelRefers(ns, k, v, m)
    case CallBackRef(m) => cb.bref && LabelRefersBack(ns, k, v, m)
    case CallRoot => cb.root && HasPrefix(k, ROOT)
    case CallCond(m, test) => cb.cond && LabelAsks(ns, k, v, m, test, env)
    case CallValue(t) => cb.condVal && HasPrefix(k, VALUE_USEDAT) && env.parseTime(v) == Some(t)
  }

  lemma FindOperator(c: string, i: nat)
    requires i < |c| && IsOperator(c[i]) && forall j :: 0 <= j < i ==> !IsOperator(c[j])
    ensures OperatorIndex(c) == i
    decreases i
  {
    if i > 0 {
      FindOperator(c[1..], i - 1);
    }
  }

  /** Only "usedat<" and "usedat>" with a duration are conditions, and mean what they say. */
  lemma ConditionExact(c: string, test: Test, env: Env)
    ensures ParseCondition(c, env) == Some(test) <==> AsksFor(c, test, env)
  {
    var i := OperatorIndex(c);
    if AsksFor(c, test, env) {
      var p := c[..7];
      assert p == "usedat<" || p == "usedat>";
      assert forall j :: 0 <= j < 7 ==> c[j] == p[j];
      FindOperator(c, 6);
      assert c[..6] == p[..6] == USEDAT;
      NotTwo(c);
    } else if i < |c| && c[..i] == USEDAT {
      assert c[..7] == c[..6] + [c[6]];
      NotTwo(c);
    }
  }

  lemma NotTwo(c: string)
    requires |c| >= 7
    ensures c[7..] != [] && c[7..][0] == '=' <==> |c| >= 8 && c[..8] == c[..7] + "="
  {
  }

  lemma {:induction false} ConditionsExact(n: Node, conds: seq<string>, env: Env, c: Call)
    ensures c in CondCalls(n, conds, env) <==>
      c.CallCond? && c.n == n && exists x :: x in conds && AsksFor(x, c.test, env)
    decreases |conds|
  {
    hide AsksFor;
    hide ParseCondition;
    if conds != [] {
      ConditionsExact(n, conds[1..], env, c);
      assert conds == [conds[0]] + conds[1..];
      if c.CallCond? {
        ConditionExact(conds[0], c.test, env);
      }
    }
  }

  /** One handler's calls for one label are the calls that the label asks of it. */
  lemma FireSound(h: Handler, ns: string, k: string, v: string, cb: Callbacks, env: Env, c: Call)
    requires IsHandler(h) && HasPrefix(k, h.key) && !Skipped(h, cb) && c in Fire(h, ns, k, v, cb, env)
    ensures CallSays(ns, k, v, cb, env, c)
  {
    if h.kind.SnapCond? && '|' in v {
      var n := SnapNode(ns, TrimLeft(k[|h.key|..]), After(v, '|'));
      ConditionsExact(n, Split(Before(v, '|'), ','), env, c);
    }
  }

  lemma FireComplete(ns: string, k: string, v: string, cb: Callbacks, env: Env, c: Call) returns (h: Handler)
    requires CallSays(ns, k, v, cb, env, c)
    ensures IsHandler(h) && HasPrefix(k, h.key) && !Skipped(h, cb) && c in Fire(h, ns, k, v, cb, env)
  {
    hide HasPrefix;
    match c
    case CallRef(m) =>
      h := if m.typ == CONTENT then Handler(REF_CONTENT, Ref(CONTENT))
           else if m.typ == IMAGE then Handler(REF_IMAGE, Ref(IMAGE)) else Handler(REF_SNAPSHOT, SnapRef);
    case CallBackRef(m) =>
      h := if m.typ == CONTAINER then Handler(BREF_CONTAINER, BackRef(CONTAINER))
           else if m.typ == CONTENT then Handler(BREF_CONTENT, BackRef(CONTENT))
           else if m.typ == IMAGE then Handler(BREF_IMAGE, BackRef(IMAGE)) else Handler(BREF_SNAPSHOT, SnapBackRef);
    case CallRoot => h := Handler(ROOT, RootMark);
    case CallCond(m, test) =>
      h := Handler(COND_SNAPSHOT, SnapCond);
      ConditionsExact(m, Split(Before(v, '|'), ','), env, c);
    case CallValue(t) => h := Handler(VALUE_USEDAT, UsedValue);
  }

  /** The calls made for an object's labels are exactly those that some label asks for. */
  lemma CallsExact(ns: string, labels: Labels, cb: Callbacks, env: Env, c: Call)
    requires env.handlers == HANDLERS
    ensures c in CallSet(ns, labels, cb, env) <==> exists k :: k in labels && CallSays(ns, k, labels[k], cb, env, c)
  {
    hide IsHandler;
    hide HasPrefix;
    hide Fire;
    hide CallSays;
    hide Skipped;
    if c in CallSet(ns, labels, cb, env) {
      var h, k :| h in env.handlers && k in labels && !Skipped(h, cb) && HasPrefix(k, h.key)
                  && c in Fire(h, ns, k, labels[k], cb, env);
      HandlersExact(h);
      FireSound(h, ns, k, labels[k], cb, env, c);
    }
    if k :| k in labels && CallSays(ns, k, labels[k], cb, env, c) {
      var h := FireComplete(ns, k, labels[k], cb, env, c);
      HandlersExact(h);
    }
  }
}
