/**
 The copy-on-write namespacedWriter. A shared writer stands for a blob the
 backend already has and copies it only when it is first written to or
 truncated. To its caller it behaves like an ordinary writer that was preloaded
 with the whole blob.
 */
module SharedWriter {
  import opened Bytes
  import opened ContentCopy
  import ContentTx

  datatype Call = Status | Write(p: Data) | Truncate(n: nat) | Digests | Commit(size: int64, expected: Digest)

  datatype Reply =
    | Offset(n: int)
    | Written(n: int)
    | Done
    | DigestIs(d: Digest)
    | Committed(d: Digest, size: int)
    | Refused

  /** The blob behind the writer, and the digest algorithm that names it. */
  datatype Target = Target(blob: Data, hash: Data -> Digest)

  /** An ordinary writer holds its bytes itself. A commit closes it, whatever comes of it. */
  datatype Plain = Plain(data: Data, closed: bool)

  /**
   A shared writer has no backend writer until it is unshared; `ingest` is what the
   backend ingest holds till then.
   */
  datatype Shared = Shared(w: Option<Data>, closed: bool, ingest: Data)

  const FRESH := Shared(None, false, [])

  function CommitReply(size: int64, expected: Digest, offset: int, actual: Digest): Reply {
    if size != 0 && size as int != offset then Refused
    else if expected != "" && expected != actual then Refused
    else Committed(actual, offset)
  }

  function PlainStep(t: Target, p: Plain, c: Call): (Plain, Reply) {
    match c
    case Status => (p, Offset(|p.data|))
    case Digests => (p, DigestIs(t.hash(p.data)))
    case Write(q) => if p.closed then (p, Refused) else (p.(data := p.data + q), Written(|q|))
    case Truncate(n) => if p.closed || n > |p.data| then (p, Refused) else (p.(data := p.data[..n]), Done)
    case Commit(size, expected) =>
      (p.(closed := true), if p.closed then Refused else CommitReply(size, expected, |p.data|, t.hash(p.data)))
  }

  /**
   createAndCopy: the backend writer resumes the ingest and up to `n` bytes of
   the blob are appended from its offset on. Fewer than `n` is an error, which
   leaves them in the ingest; with n == 0 nothing is copied.
   */
  function Unshare(t: Target, s: Shared, n: nat): (s': Shared)
    requires s.w.None?
  {
    var rest := if |s.ingest| < |t.blob| then t.blob[|s.ingest|..] else [];
    if |rest| < n then s.(ingest := s.ingest + rest) else s.(w := Some(s.ingest + rest[..n]))
  }

  /** The shared writer's own state machine; once unshared it is the ordinary one. */
  function SharedStep(t: Target, s: Shared, c: Call): (Shared, Reply)
  {
    match s.w
    case Some(data) =>
      var (p, r) := PlainStep(t, Plain(data, s.closed), c);
      (s.(w := Some(p.data), closed := p.closed), r)
    case None =>
      match c
      case Status => (s, Offset(|t.blob|))
      case Digests => (s, DigestIs(t.hash(t.blob)))
      case Write(q) =>
        if q == [] then (s, Written(0)) else
        var u := Unshare(t, s, |t.blob|);
        if u.w.None? then (u, Refused) else (u.(w := Some(u.w.value + q)), Written(|q|))
      case Truncate(n) =>
        var u := Unshare(t, s, n);
        (u, if u.w.None? then Refused else Done)
      case Commit(size, expected) => (s, CommitReply(size, expected, |t.blob|, t.hash(t.blob)))
  }

  function PlainRun(t: Target, p: Plain, calls: seq<Call>): seq<Reply>
    decreases |calls|
  {
    if calls == [] then [] else
      var (p', r) := PlainStep(t, p, calls[0]);
      [r] + PlainRun(t, p', calls[1..])
  }

  function SharedRun(t: Target, s: Shared, calls: seq<Call>): seq<Reply>
    decreases |calls|
  {
    if calls == [] then [] else
      var (s', r) := SharedStep(t, s, calls[0]);
      [r] + SharedRun(t, s', calls[1..])
  }

  /** The bytes a shared writer stands for. */
  function View(t: Target, s: Shared): Data {
    match s.w
    case None => t.blob
    case Some(data) => data
  }

  /** As long as the writer is shared, no truncation goes beyond the blob. */
  ghost predicate InRange(t: Target, s: Shared, calls: seq<Call>)
    decreases |calls|
  {
    calls != [] && s.w.None? ==>
      (calls[0].Truncate? ==> calls[0].n <= |t.blob|) && InRange(t, SharedStep(t, s, calls[0]).0, calls[1..])
  }

  /** A call that a shared writer answers as a closed one does: it asks, or is a commit that is refused. */
  predicate Quiet(t: Target, c: Call) {
    c.Status? || c.Digests? || (c.Commit? && CommitReply(c.size, c.expected, |t.blob|, t.hash(t.blob)) == Refused)
  }

  /** After the first commit that finds the writer still shared there are only quiet calls. */
  ghost predicate QuietAfterCommit(t: Target, s: Shared, calls: seq<Call>)
    decreases |calls|
  {
    calls != [] ==>
      if s.w.None? && calls[0].Commit? then forall i :: 1 <= i < |calls| ==> Quiet(t, calls[i])
      else QuietAfterCommit(t, SharedStep(t, s, calls[0]).0, calls[1..])
  }

  /** An open writer whose backend ingest is still empty. */
  ghost predicate Open(s: Shared) {
    !s.closed && (s.w.None? ==> s.ingest == [])
  }

  lemma StepRefines(t: Target, s: Shared, c: Call)
    requires Open(s) && (c.Truncate? ==> c.n <= |View(t, s)|)
    ensures var p, (s', r) := Plain(View(t, s), false), SharedStep(t, s, c);
      && r == PlainStep(t, p, c).1
      && (!c.Commit? ==> Open(s') && PlainStep(t, p, c).0 == Plain(View(t, s'), false))
  {
    assert t.blob[0..] == t.blob && t.blob[..|t.blob|] == t.blob;
  }

  /** An unshared writer is the ordinary one, closed or not. */
  lemma {:induction false} UnsharedIsPlain(t: Target, s: Shared, calls: seq<Call>)
    requires s.w.Some?
    ensures SharedRun(t, s, calls) == PlainRun(t, Plain(s.w.value, s.closed), calls)
    decreases |calls|
  {
    if calls != [] {
      UnsharedIsPlain(t, SharedStep(t, s, calls[0]).0, calls[1..]);
    }
  }

  /** A shared writer after a commit, beside the preloaded writer that the commit closed. */
  lemma {:induction false} AfterSharedCommit(t: Target, s: Shared, calls: seq<Call>)
    requires s.w.None? && s.ingest == [] && InRange(t, s, calls)
    ensures SharedRun(t, s, calls) == PlainRun(t, Plain(t.blob, true), calls) <==>
      forall i :: 0 <= i < |calls| ==> Quiet(t, calls[i])
    decreases |calls|
  {
    if calls != [] {
      var p := Plain(t.blob, true);
      var (s', r) := SharedStep(t, s, calls[0]);
      assert r == PlainStep(t, p, calls[0]).1 <==> Quiet(t, calls[0]);
      if Quiet(t, calls[0]) {
        AfterSharedCommit(t, s, calls[1..]);
        HeadsAgree(r, SharedRun(t, s, calls[1..]), PlainRun(t, p, calls[1..]));
        QuietRest(t, calls);
      } else {
        assert SharedRun(t, s, calls)[0] == r && PlainRun(t, p, calls)[0] == PlainStep(t, p, calls[0]).1;
      }
    }
  }

  lemma HeadsAgree(r: Reply, a: seq<Reply>, b: seq<Reply>)
    ensures [r] + a == [r] + b <==> a == b
  {
    assert ([r] + a)[1..] == a && ([r] + b)[1..] == b;
  }

  lemma QuietRest(t: Target, calls: seq<Call>)
    requires calls != []
    ensures (forall i :: 1 <= i < |calls| ==> Quiet(t, calls[i])) <==>
      forall i :: 0 <= i < |calls[1..]| ==> Quiet(t, calls[1..][i])
  {
    if forall i :: 0 <= i < |calls[1..]| ==> Quiet(t, calls[1..][i]) {
      forall i | 1 <= i < |calls| ensures Quiet(t, calls[i]) {
        assert calls[1..][i - 1] == calls[i];
      }
    }
  }

  /**
   A shared writer answers a sequence of calls as the writer preloaded with the
   whole blob does exactly when the first commit that finds it still shared is
   followed by quiet calls only. Once it is unshared, anything may follow.
   */
  lemma {:induction false} SharedRefinesPlain(t: Target, s: Shared, calls: seq<Call>)
    requires Open(s) && InRange(t, s, calls)
    ensures SharedRun(t, s, calls) == PlainRun(t, Plain(View(t, s), false), calls) <==> QuietAfterCommit(t, s, calls)
    decreases |calls|
  {
    if s.w.Some? {
      UnsharedIsPlain(t, s, calls);
      UnsharedStaysQuiet(t, s, calls);
    } else if calls != [] {
      var p := Plain(View(t, s), false);
      var (s', r) := SharedStep(t, s, calls[0]);
      var p' := PlainStep(t, p, calls[0]).0;
      StepRefines(t, s, calls[0]);
      HeadsAgree(r, SharedRun(t, s', calls[1..]), PlainRun(t, p', calls[1..]));
      if calls[0].Commit? {
        AfterSharedCommit(t, s', calls[1..]);
        QuietRest(t, calls);
      } else {
        SharedRefinesPlain(t, s', calls[1..]);
      }
    }
  }

  lemma {:induction false} UnsharedStaysQuiet(t: Target, s: Shared, calls: seq<Call>)
    requires s.w.Some?
    ensures QuietAfterCommit(t, s, calls)
    decreases |calls|
  {
    if calls != [] {
      UnsharedStaysQuiet(t, SharedStep(t, s, calls[0]).0, calls[1..]);
    }
  }

  /**
   After a commit the two part: a refused commit closes the preloaded writer but
   not a shared one, so the next Write is refused by the one and taken by the other.
   */
  lemma RefusedCommitParts(t: Target, size: int64, p: Data)
    requires size != 0 && size as int != |t.blob| && p != []
    ensures SharedRun(t, FRESH, [Commit(size, ""), Write(p)]) == [Refused, Written(|p|)]
    ensures PlainRun(t, Plain(t.blob, false), [Commit(size, ""), Write(p)]) == [Refused, Refused]
  {
    var calls := [Commit(size, ""), Write(p)];
    assert calls[1..] == [Write(p)] && calls[1..][1..] == [];
    assert SharedRun(t, FRESH, [Write(p)]) == [Written(|p|)];
    assert PlainRun(t, Plain(t.blob, true), [Write(p)]) == [Refused];
  }

  /**
   The empty ingest matters. On an open writer that is still shared, a call within
   range other than Commit has the reply and the effect it has on the preloaded
   writer exactly when the backend ingest is empty or the call copies nothing.
   */
  lemma StaleIngestExact(t: Target, s: Shared, c: Call)
    requires s.w.None? && !s.closed && !c.Commit? && (c.Truncate? ==> c.n <= |t.blob|)
    ensures var p, (s', r) := Plain(t.blob, false), SharedStep(t, s, c);
      (r == PlainStep(t, p, c).1 && Plain(View(t, s'), s'.closed) == PlainStep(t, p, c).0) <==>
      s.ingest == [] || c.Status? || c.Digests? || c == Write([])
  {
    if s.ingest == [] {
      StepRefines(t, s, c);
    } else {
      StaleLength(t, s, c);
      assert t.blob + [] == t.blob;
    }
  }

  /** What a writer unshared over a stale ingest holds is longer than it should be. */
  lemma StaleLength(t: Target, s: Shared, c: Call)
    requires s.w.None? && s.ingest != [] && (c.Truncate? ==> c.n <= |t.blob|)
    ensures c.Write? && c.p != [] && SharedStep(t, s, c).0.w.Some? ==>
      |View(t, SharedStep(t, s, c).0)| > |t.blob| + |c.p|
    ensures c.Truncate? && SharedStep(t, s, c).0.w.Some? ==> |View(t, SharedStep(t, s, c).0)| > c.n
  {
  }

  /** A first Write of a non-empty blob is refused then. */
  lemma StaleIngestRefuses(t: Target, s: Shared, p: Data)
    requires s.w.None? && t.blob != [] && p != []
    ensures SharedStep(t, s, Write(p)).1 == Written(|p|) <==> s.ingest == []
  {
  }

  /** A first Truncate to nothing is not: it answers Done and leaves the stale bytes in place. */
  lemma StaleIngestStays(t: Target, s: Shared)
    requires s.w.None? && !s.closed
    ensures SharedRun(t, s, [Truncate(0), Status]) == [Done, Offset(|s.ingest|)]
    ensures PlainRun(t, Plain(t.blob, false), [Truncate(0), Status]) == [Done, Offset(0)]
  {
    var calls := [Truncate(0), Status];
    assert calls[1..] == [Status] && calls[1..][1..] == [];
    var rest := if |s.ingest| < |t.blob| then t.blob[|s.ingest|..] else [];
    assert s.ingest + rest[..0] == s.ingest;
    assert SharedRun(t, s.(w := Some(s.ingest)), [Status]) == [Offset(|s.ingest|)];
    assert PlainRun(t, Plain([], false), [Status]) == [Offset(0)];
  }

  /** The commit of the protocol's writers settles on what the writer's own commit answers. */
  lemma CommitsAgree(cfg: ContentTx.Config, b: ContentTx.Backend, w: ContentTx.Writer, size: int64, expected: Digest)
    requires w.unshared ==> w.bref in b.ingests
    ensures var c := ContentTx.BackendCommit(cfg, b, w, size as int, expected);
      var offset := if w.unshared then |b.ingests[w.bref]| else w.size;
      var actual := if w.unshared then cfg.hash(b.ingests[w.bref]) else w.digest;
      CommitReply(size, expected, offset, actual) == if c.Ok? then Committed(c.value.0, c.value.1) else Refused
  {
  }

  /** namespacedWriter: `w` stays null until the writer is unshared. */
  class NamespacedWriter {
    const target: Target
    const size: int64
    var w: Sink?
    var closed: bool
    var ingest: Data

    ghost predicate Valid()
      reads this, w
    {
      && |target.blob| == size as int
      && (w == null ==> !closed)
      && (w != null ==> w.script == [] && w.commits == [])
    }

    ghost function State(): Shared
      reads this, w
    {
      Shared(if w == null then None else Some(w.data), closed, ingest)
    }

    constructor (target: Target, ingest: Data)
      requires |target.blob| <= MAX_INT64
      ensures Valid() && this.target == target && State() == Shared(None, false, ingest)
    {
      this.target, size, w, closed, this.ingest := target, |target.blob| as int64, null, false, ingest;
    }

    method CreateAndCopy(n: int64) returns (ok: bool)
      requires Valid() && w == null && 0 <= n
      modifies this
      ensures Valid() && (w == null || fresh(w)) && closed == old(closed)
      ensures ok <==> n == 0 || |old(ingest)| + n as int <= |target.blob|
      ensures ok ==> w != null
      ensures ok && n == 0 ==> w.data == old(ingest)
      ensures ok && n > 0 ==> var k := |old(ingest)|; w.data == old(ingest) + target.blob[k..k + n as int]
      ensures State() == Unshare(target, old(State()), n as int) && (ok <==> w != null)
    {
      ghost var rest := if |ingest| < |target.blob| then target.blob[|ingest|..] else [];
      assert rest[..|rest|] == rest && ingest + rest[..0] == ingest;
      var cw := new Sink(target.hash, ingest, [], []);
      ok := true;
      if n > 0 {
        ok := CopyReaderAt(cw, target.blob, n);
        ghost var k := Available(target.blob, |ingest|, Some(n));
        assert Slice(target.blob, |ingest|, k) == rest[..k];
      }
      if ok {
        w := cw;
      } else {
        ingest := cw.data;
      }
    }

    /** The first bytes written go behind a copy of the whole blob; over a stale ingest that fails. */
    method Write(p: Data) returns (r: Reply)
      requires Valid()
      modifies this, w
      ensures Valid() && (w == old(w) || fresh(w)) && closed == old(closed)
      ensures old(w) == null && p == [] ==> r == Written(0) && unchanged(this)
      ensures old(w) == null && p != [] && old(ingest) == [] ==>
        r == Written(|p|) && w != null && w.data == target.blob + p
      ensures old(w) == null && p != [] && old(ingest) != [] && target.blob != [] ==> r == Refused && w == null
      ensures old(w) != null && old(closed) ==> r == Refused && w == old(w) && w.data == old(w.data)
      ensures old(w) != null && !old(closed) ==> r == Written(|p|) && w == old(w) && w.data == old(w.data) + p
      ensures (State(), r) == SharedStep(target, old(State()), Call.Write(p))
    {
      if w == null {
        if |p| == 0 {
          return Written(0);
        }
        var ok := CreateAndCopy(size);
        if !ok {
          return Refused;
        }
      }
      if closed {
        return Refused;
      }
      assert p[..|p|] == p;
      var n, _ := w.Write(p);
      r := Written(n);
    }

    method Digest() returns (r: Reply)
      requires Valid()
      ensures r == DigestIs(target.hash(if w == null then target.blob else w.data))
      ensures (State(), r) == SharedStep(target, State(), Digests)
    {
      r := DigestIs(target.hash(if w == null then target.blob else w.data));
    }

    method Status() returns (r: Reply)
      requires Valid()
      ensures r == Offset(if w == null then |target.blob| else |w.data|)
      ensures (State(), r) == SharedStep(target, State(), Call.Status)
    {
      r := Offset(if w == null then size as int else |w.data|);
    }

    /** Cuts down what the writer stands for, copying only what is left of the blob. */
    method Truncate(n: int64) returns (r: Reply)
      requires Valid() && 0 <= n
      modifies this, w
      ensures Valid() && (w == old(w) || fresh(w)) && closed == old(closed)
      ensures old(w) == null && old(ingest) == [] && n as int <= |target.blob| ==>
        r == Done && w != null && w.data == target.blob[..n as int]
      ensures old(w) == null && n as int > |target.blob| ==> r == Refused && w == null
      ensures old(w) != null ==> w == old(w) && (r == Done <==> !old(closed) && n as int <= |old(w.data)|)
      ensures old(w) != null && r == Done ==> n as int <= |old(w.data)| && w.data == old(w.data)[..n as int]
      ensures old(w) != null && r != Done ==> r == Refused && w.data == old(w.data)
      ensures (State(), r) == SharedStep(target, old(State()), Call.Truncate(n as int))
    {
      if w == null {
        var ok := CreateAndCopy(n);
        return if ok then Done else Refused;
      }
      if closed || n as int > |w.data| {
        return Refused;
      }
      w.Truncate(n as int);
      r := Done;
    }

    /** The backend part of Commit. It closes a writer of its own, whatever comes of it, but not a shared one. */
    method Commit(size0: int64, expected: string) returns (r: Reply)
      requires Valid()
      modifies this
      ensures Valid() && w == old(w) && ingest == old(ingest) && (closed <==> w != null)
      ensures var data := if w == null then target.blob else w.data;
        r == if !old(closed) && (size0 == 0 || size0 as int == |data|)
                && (expected == "" || expected == target.hash(data))
             then Committed(target.hash(data), |data|) else Refused
      ensures (State(), r) == SharedStep(target, old(State()), Call.Commit(size0, expected))
    {
      if w == null {
        if size0 != 0 && size0 != size {
          return Refused;
        }
        var d := target.hash(target.blob);
        if expected != "" && expected != d {
          return Refused;
        }
        return Committed(d, size as int);
      }
      var wasClosed := closed;
      closed := true;
      if wasClosed || (size0 != 0 && size0 as int != |w.data|) {
        return Refused;
      }
      var d := target.hash(w.data);
      if expected != "" && expected != d {
        return Refused;
      }
      r := Committed(d, |w.data|);
    }
  }
}
