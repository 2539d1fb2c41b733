/** core/content helpers: the buffered copy loop, resumable Copy and CopyReaderAt. */
module ContentCopy {
  import opened Bytes

  const MAX_INT64 := 0x7FFF_FFFF_FFFF_FFFF

  newtype int64 = x: int | -0x8000_0000_0000_0000 <= x <= MAX_INT64

  /** The pooled buffer of copyWithBuffer. */
  const BUFFER: int64 := 0x10_0000

  datatype Failure = NoFailure | Reset | ShortWrite | ReadFailed | WriteFailed

  /**
   What the writer does with one call. A reset loses the writer's place: it
   comes back holding `data` and the caller is told to try again.
   */
  datatype Outcome = Accept | Short(n: nat) | ResetTo(data: Data) | Refuse

  datatype CommitOutcome = Commits | CommitResetTo(data: Data) | AlreadyExists | CommitRefuses

  predicate IsPrefix(p: Data, s: Data) {
    |p| <= |s| && s[..|p|] == p
  }

  /** A seekable reader over fixed bytes; reading at or after `failAt` fails. */
  class Source {
    const data: Data
    const failAt: Option<nat>
    var pos: nat

    constructor (data: Data, failAt: Option<nat>)
      ensures this.data == data && this.failAt == failAt && pos == 0
    {
      this.data, this.failAt, pos := data, failAt, 0;
    }

    method Seek(offset: nat)
      modifies this
      ensures pos == offset
    {
      pos := offset;
    }

    /** io.ReadAtLeast with a full buffer of `n` bytes: short only at the end or on an error. */
    method ReadFull(n: nat) returns (p: Data, failed: bool)
      modifies this
      ensures !failed && old(pos) >= |data| ==> p == []
      ensures !failed && old(pos) < |data| ==>
        p == if old(pos) + n <= |data| then data[old(pos)..old(pos) + n] else data[old(pos)..]
      ensures |p| <= n && pos == old(pos) + |p| && (p != [] ==> pos <= |data| && p == data[old(pos)..pos])
      ensures failed ==> failAt.Some?
    {
      var end := if pos >= |data| then pos else if pos + n <= |data| then pos + n else |data|;
      failed := failAt.Some? && pos <= failAt.value < end;
      if failed {
        end := failAt.value;
      }
      p := if end > pos then data[pos..end] else [];
      pos := pos + |p|;
    }
  }

  /** A content writer whose answers are scripted; a script that has run out accepts. */
  class Sink {
    const hash: Data -> Digest
    var data: Data
    var script: seq<Outcome>
    var commits: seq<CommitOutcome>
    var committed: bool

    constructor (hash: Data -> Digest, data: Data, script: seq<Outcome>, commits: seq<CommitOutcome>)
      ensures this.hash == hash && this.data == data && this.script == script && this.commits == commits && !committed
    {
      this.hash, this.data, this.script, this.commits, committed := hash, data, script, commits, false;
    }

    /** Whatever the writer holds when work resumes are the first bytes of `s`. */
    ghost predicate ResumesIn(s: Data)
      reads this
    {
      && (forall i :: 0 <= i < |script| && script[i].ResetTo? ==> IsPrefix(script[i].data, s))
      && (forall i :: 0 <= i < |commits| && commits[i].CommitResetTo? ==> IsPrefix(commits[i].data, s))
    }

    method Write(p: Data) returns (n: nat, failure: Failure)
      modifies this
      ensures n <= |p| && committed == old(committed) && commits == old(commits)
      ensures script == if old(script) == [] then [] else old(script)[1..]
      ensures failure == NoFailure ==> data == old(data) + p[..n]
      ensures failure == Reset <==> old(script) != [] && old(script)[0].ResetTo?
      ensures failure == Reset ==> data == old(script)[0].data
      ensures old(script) == [] || old(script)[0] == Accept ==> failure == NoFailure && n == |p|
    {
      var outcome := if script == [] then Accept else script[0];
      script := if script == [] then [] else script[1..];
      match outcome
      case Accept => n, failure, data := |p|, NoFailure, data + p;
      case Short(k) =>
        n := if k < |p| then k else |p|;
        failure, data := NoFailure, data + p[..n];
      case ResetTo(d) => n, failure, data := 0, Reset, d;
      case Refuse => n, failure := 0, WriteFailed;
    }

    /** Cuts the ingest down to its first `size` bytes. */
    method Truncate(size: nat)
      requires size <= |data|
      modifies this`data
      ensures data == old(data)[..size]
    {
      data := data[..size];
    }

    /** The size and digest that a commit asks for are those of what the writer holds, unless it asks for none. */
    predicate Fits(size: int64, expected: Digest)
      reads this
    {
      (size == 0 || size as int == |data|) && (expected == "" || expected == hash(data))
    }

    method Commit(size: int64, expected: Digest) returns (r: CommitOutcome)
      modifies this
      ensures script == old(script) && commits == if old(commits) == [] then [] else old(commits)[1..]
      ensures r.CommitResetTo? ==> old(commits) != [] && r == old(commits)[0] && data == r.data
      ensures !r.CommitResetTo? ==> data == old(data)
      ensures committed <==> old(committed) || r == Commits
      ensures r == Commits ==> Fits(size, expected)
      ensures old(commits) == [] && old(Fits(size, expected)) ==> r == Commits
      ensures old(commits) != [] && (old(commits)[0] == Commits ==> old(Fits(size, expected))) ==> r == old(commits)[0]
    {
      r := if commits == [] then Commits else commits[0];
      commits := if commits == [] then [] else commits[1..];
      if r == Commits && !Fits(size, expected) {
        r := CommitRefuses;
      }
      match r
      case Commits => committed := true;
      case CommitResetTo(d) => data := d;
      case _ =>
    }
  }

  /** How much a limited reader has to give from `pos`; no limit is None. */
  function Available(data: Data, pos: nat, limit: Option<int64>): (n: nat)
    requires limit.Some? ==> limit.value >= 0
  {
    var rest := if pos >= |data| then 0 else |data| - pos;
    if limit.Some? && limit.value as int < rest then limit.value as int else rest
  }

  /** The `n` bytes from `pos` on, which are there whenever n > 0. */
  ghost function Slice(data: Data, pos: nat, n: nat): Data
    requires n > 0 ==> pos + n <= |data|
  {
    if n == 0 then [] else data[pos..pos + n]
  }

  lemma SliceJoin(data: Data, pos: nat, a: nat, b: nat)
    requires a + b > 0 ==> pos + a + b <= |data|
    ensures Slice(data, pos, 0) == []
    ensures Slice(data, pos, a) + Slice(data, pos + a, b) == Slice(data, pos, a + b)
  {
  }

  lemma SuffixSelf(s: seq<Outcome>)
    ensures IsSuffix(s, s)
  {
  }

  lemma SuffixTwice(s: seq<Outcome>, t: seq<Outcome>, u: seq<Outcome>)
    requires IsSuffix(s, t) && IsSuffix(t, u)
    ensures IsSuffix(s, u) && |s| <= |t| <= |u|
  {
  }

  lemma SuffixHas(s: seq<Outcome>, t: seq<Outcome>, x: Outcome)
    requires IsSuffix(s, t) && x in s
    ensures x in t
  {
  }

  /** Every write is taken whole or answered with a reset. */
  predicate Obliging(script: seq<Outcome>) {
    forall x :: x in script ==> x == Accept || x.ResetTo?
  }

  lemma SuffixObliging(s: seq<Outcome>, t: seq<Outcome>)
    requires IsSuffix(s, t) && Obliging(t)
    ensures Obliging(s)
  {
  }

  predicate IsSuffix(s: seq<Outcome>, t: seq<Outcome>) {
    |s| <= |t| && s == t[|t| - |s|..]
  }

  /** The writer has used up some of its script and nothing else of what it was given. */
  twostate predicate OnlyWrote(dst: Sink)
    reads dst
  {
    dst.committed == old(dst.committed) && dst.commits == old(dst.commits) && IsSuffix(dst.script, old(dst.script))
  }

  /** One round of the copy loop: fill the buffer, write it out. */
  method CopyChunk(dst: Sink, src: Source, n: nat) returns (nr: nat, failure: Failure)
    modifies dst, src
    ensures OnlyWrote(dst)
    ensures failure == NoFailure ==> nr == Available(src.data, old(src.pos), None) || nr == n
    ensures failure == NoFailure ==>
      nr <= n && nr <= Available(src.data, old(src.pos), None) && src.pos == old(src.pos) + nr
    ensures failure == NoFailure ==> dst.data == old(dst.data) + Slice(src.data, old(src.pos), nr)
    ensures failure == Reset ==> |dst.script| < |old(dst.script)| && ResetTo(dst.data) in old(dst.script)
    ensures old(dst.script) == [] && src.failAt.None? ==> failure == NoFailure
    ensures old(Obliging(dst.script)) && src.failAt.None? ==> failure == NoFailure || failure == Reset
  {
    failure := NoFailure;
    var p, readFailed := src.ReadFull(n);
    nr := |p|;
    if p != [] {
      var nw;
      nw, failure := dst.Write(p);
      if failure == NoFailure && nw != |p| {
        failure := ShortWrite;
      }
    }
    if failure == NoFailure && readFailed {
      failure := ReadFailed;
    }
  }

  /**
   copyWithBuffer. Without a failure it has appended everything the limited
   reader had, and `written` counts it; the count never leaves int64.
   */
  method CopyWithBuffer(dst: Sink, src: Source, limit: Option<int64>) returns (written: int64, failure: Failure)
    requires limit.Some? ==> limit.value >= 0
    requires |src.data| <= MAX_INT64
    modifies dst, src
    ensures OnlyWrote(dst)
    ensures 0 <= written as int <= Available(src.data, old(src.pos), limit)
    ensures failure == NoFailure ==> written as int == Available(src.data, old(src.pos), limit)
    ensures failure == NoFailure ==> dst.data == old(dst.data) + Slice(src.data, old(src.pos), written as int)
    ensures failure == Reset ==> |dst.script| < |old(dst.script)| && ResetTo(dst.data) in old(dst.script)
    ensures old(dst.script) == [] && src.failAt.None? ==> failure == NoFailure
    ensures old(Obliging(dst.script)) && src.failAt.None? ==> failure == NoFailure || failure == Reset
  {
    hide Slice;
    hide Available;
    hide IsSuffix;
    hide Room;
    hide Obliging;
    written, failure := 0, NoFailure;
    SliceJoin(src.data, src.pos, 0, 0);
    SuffixSelf(dst.script);
    ghost var start, before := src.pos, dst.data;
    ghost var all := Available(src.data, start, limit);
    AvailableBound(src.data, start, limit);
    ghost var script0 := dst.script;
    while true
      invariant OnlyWrote(dst)
      invariant 0 <= written as int <= all && src.pos == start + written as int
      invariant dst.data == before + Slice(src.data, start, written as int)
      decreases |src.data| - src.pos
    {
      var room := Room(limit, written);
      ghost var script := dst.script;
      var nr;
      if Obliging(script0) {
        SuffixObliging(script, script0);
      }
      nr, failure := CopyChunk(dst, src, room as int);
      SuffixTwice(dst.script, script, script0);
      if failure != NoFailure {
        if failure == Reset {
          SuffixHas(script, script0, ResetTo(dst.data));
        }
        return;
      }
      RoundAdds(before, src.data, start, limit, written, nr);
      written := written + nr as int64;
      if nr < BUFFER as int {
        return;
      }
    }
  }

  /** How much of the buffer the next read may fill: a limited reader gives no more than is left. */
  function Room(limit: Option<int64>, written: int64): (n: int64)
    requires 0 <= written && (limit.Some? ==> written <= limit.value)
    ensures 0 <= n <= BUFFER
  {
    if limit.Some? && limit.value - written < BUFFER then limit.value - written else BUFFER
  }

  lemma AvailableBound(data: Data, start: nat, limit: Option<int64>)
    requires limit.Some? ==> limit.value >= 0
    ensures var all := Available(data, start, limit);
      (all > 0 ==> start + all <= |data|) && (limit.Some? ==> all <= limit.value as int)
  {
  }

  /** One round extends the copied slice, and a round that does not fill the buffer was the last. */
  lemma RoundAdds(before: Data, data: Data, start: nat, limit: Option<int64>, written: int64, nr: nat)
    requires limit.Some? ==> limit.value >= 0
    requires 0 <= written as int <= Available(data, start, limit)
    requires limit.Some? ==> written <= limit.value
    requires var rest, room := Available(data, start + written as int, None), Room(limit, written) as int;
      nr <= room && nr <= rest && (nr == rest || nr == room)
    ensures written as int + nr <= Available(data, start, limit)
    ensures nr < BUFFER as int ==> written as int + nr == Available(data, start, limit)
    ensures before + Slice(data, start, written as int) + Slice(data, start + written as int, nr) ==
        before + Slice(data, start, written as int + nr)
  {
    SliceJoin(data, start, written as int, nr);
    var a, b := Slice(data, start, written as int), Slice(data, start + written as int, nr);
    assert before + a + b == before + (a + b);
  }

  /** Nil(true) is a plain commit; Nil(false) a commit that found the blob there already. */
  datatype CopyResult =
    | Nil(plain: bool)
    | InvalidSize
    | OffsetTooLarge
    | CopyFailed(failure: Failure)
    | ShortRead
    | TooLong
    | CommitFailed

  /** What one attempt appends to the resumed prefix. */
  lemma AttemptHolds(data: Data, resumed: Data, size: int64, limit: Option<int64>, copied: int64)
    requires IsPrefix(resumed, data) && 0 <= size && |data| <= MAX_INT64
    requires size > 0 ==> |resumed| <= size as int
    requires limit == ReadLimit(size, |resumed| as int64)
    requires copied as int == Available(data, |resumed|, limit)
    ensures size == 0 ==> resumed + Slice(data, |resumed|, copied as int) == data
    ensures size > 0 ==> (copied as int == size as int - |resumed| <==> |data| == size as int)
    ensures size > 0 && |data| == size as int ==> resumed + Slice(data, |resumed|, copied as int) == data
  {
    assert data[..|resumed|] + data[|resumed|..] == data;
  }

  /** io.LimitReader's bound: one byte more than is still expected, if that fits. */
  function ReadLimit(size: int64, offset: int64): Option<int64>
    requires 0 <= offset && (size > 0 ==> offset <= size)
  {
    if size > 0 && (size - offset) as int < MAX_INT64 then Some(size - offset + 1) else None
  }

  datatype Transferred = Complete | Again | Broken(result: CopyResult)

  /** The transfer of one attempt: Complete leaves exactly the source in the writer. */
  method Transfer(cw: Sink, or: Source, size: int64, retry: bool) returns (t: Transferred)
    requires |or.data| <= MAX_INT64 && 0 <= size && (!retry ==> or.pos == 0)
    requires IsPrefix(cw.data, or.data)
    modifies cw, or
    ensures OnlyWrote(cw)
    ensures t == Complete ==> cw.data == or.data && (size > 0 ==> |or.data| == size as int)
    ensures t == Again ==> |cw.script| < |old(cw.script)| && ResetTo(cw.data) in old(cw.script)
    ensures t.Broken? ==> !t.result.Nil? && t.result != InvalidSize
    ensures old(cw.script) == [] && or.failAt.None? && (size == 0 || size as int == |or.data|) ==> t == Complete
    ensures old(Obliging(cw.script)) && or.failAt.None? && (size == 0 || size as int == |or.data|) ==> !t.Broken?
  {
    hide Obliging;
    hide Slice;
    hide Available;
    ghost var resumed := cw.data;
    var offset := |cw.data| as int64;
    if offset > 0 || retry {
      or.Seek(offset as int);
    }
    if size > 0 && offset > size {
      return Broken(OffsetTooLarge);
    }
    var limit := ReadLimit(size, offset);
    var copied, failure := CopyWithBuffer(cw, or, limit);
    if failure == Reset {
      return Again;
    }
    if failure != NoFailure {
      return Broken(CopyFailed(failure));
    }
    AttemptHolds(or.data, resumed, size, limit, copied);
    if size != 0 && copied < size - offset {
      return Broken(ShortRead);
    }
    if size > 0 && copied > size - offset {
      return Broken(TooLong);
    }
    t := Complete;
  }

  /** Nothing goes wrong but resets: the source does not fail, and neither a write nor a commit is refused. */
  predicate Patient(cw: Sink, or: Source)
    reads cw
  {
    or.failAt.None? && Obliging(cw.script) && CommitRefuses !in cw.commits
  }

  /** The first commit that is not reset is the one at `i`, and it finds the blob there already. */
  ghost predicate ExistsAt(commits: seq<CommitOutcome>, i: nat) {
    i < |commits| && commits[i] == AlreadyExists && forall j :: 0 <= j < i ==> commits[j].CommitResetTo?
  }

  ghost predicate MeetsExisting(commits: seq<CommitOutcome>) {
    exists i :: ExistsAt(commits, i)
  }

  lemma FirstCommit(commits: seq<CommitOutcome>)
    ensures commits == [] ==> !MeetsExisting(commits)
    ensures commits != [] && !commits[0].CommitResetTo? ==> (MeetsExisting(commits) <==> commits[0] == AlreadyExists)
    ensures commits != [] && commits[0].CommitResetTo? ==> (MeetsExisting(commits) <==> MeetsExisting(commits[1..]))
  {
    if i: nat :| ExistsAt(commits, i) {
      if i > 0 {
        assert ExistsAt(commits[1..], i - 1);
      }
    }
    if commits != [] && commits[0] == AlreadyExists {
      assert ExistsAt(commits, 0);
    } else if commits != [] && commits[0].CommitResetTo? {
      if i: nat :| ExistsAt(commits[1..], i) {
        assert ExistsAt(commits, i + 1);
      }
    }
  }

  /** The source is of the size and digest asked for, unless none is. */
  predicate Matches(cw: Sink, or: Source, size: int64, expected: Digest) {
    (size == 0 || size as int == |or.data|) && (expected == "" || expected == cw.hash(or.data))
  }

  /** One attempt of Copy's loop; None asks for another one. */
  method Attempt(cw: Sink, or: Source, size: int64, expected: Digest, retry: bool) returns (r: Option<CopyResult>)
    requires |or.data| <= MAX_INT64 && 0 <= size && (!retry ==> or.pos == 0)
    requires IsPrefix(cw.data, or.data) && cw.ResumesIn(or.data) && !cw.committed
    modifies cw, or
    ensures r.None? ==> IsPrefix(cw.data, or.data) && cw.ResumesIn(or.data) && !cw.committed
    ensures r.None? ==> |cw.script| + |cw.commits| < |old(cw.script)| + |old(cw.commits)|
    ensures r.Some? ==> r.value != InvalidSize && (cw.committed <==> r.value == Nil(true))
    ensures r.Some? && r.value.Nil? ==> cw.data == or.data && (size > 0 ==> |or.data| == size as int)
    ensures r == Some(Nil(true)) && expected != "" ==> cw.hash(or.data) == expected
    ensures old(Patient(cw, or)) && Matches(cw, or, size, expected) ==>
      if r.None? then Patient(cw, or) && MeetsExisting(cw.commits) == old(MeetsExisting(cw.commits))
      else r.value == Nil(!old(MeetsExisting(cw.commits)))
  {
    hide Obliging;
    hide MeetsExisting;
    FirstCommit(cw.commits);
    ghost var script := cw.script;
    var t := Transfer(cw, or, size, retry);
    if Obliging(script) {
      SuffixObliging(cw.script, script);
    }
    if t == Again {
      return None;
    }
    if t.Broken? {
      return Some(t.result);
    }
    var c := cw.Commit(size, expected);
    match c
    case CommitResetTo(_) => return None;
    case Commits => return Some(Nil(true));
    case AlreadyExists => return Some(Nil(false));
    case CommitRefuses => return Some(CommitFailed);
  }

  /**
   Copy from the start of a seekable source, across any number of resets after
   each of which the writer resumes with a prefix of the source. Nil means that
   the writer held exactly the source when it was committed and, for a positive
   size, that the source has that size; a plain commit also that it has the digest
   asked for. A source of the right size and digest gets there however often a write
   or a commit is reset, as long as none is refused: plainly, unless the commit that
   is not reset finds the blob there already. No int64 operation overflows.
   */
  method Copy(cw: Sink, or: Source, size0: int64, expected: Digest) returns (r: CopyResult)
    requires or.pos == 0 && |or.data| <= MAX_INT64
    requires IsPrefix(cw.data, or.data) && cw.ResumesIn(or.data) && !cw.committed
    modifies cw, or
    ensures size0 < -1 <==> r == InvalidSize
    ensures r.Nil? ==> cw.data == or.data && (size0 > 0 ==> |or.data| == size0 as int)
    ensures cw.committed <==> r == Nil(true)
    ensures r == Nil(true) && expected != "" ==> cw.hash(or.data) == expected
    ensures old(Patient(cw, or)) && size0 >= -1 && Matches(cw, or, if size0 == -1 then 0 else size0, expected) ==>
      r == Nil(!old(MeetsExisting(cw.commits)))
  {
    if size0 < -1 {
      return InvalidSize;
    }
    var size := if size0 == -1 then 0 else size0;
    var retry := false;
    while true
      invariant !retry ==> or.pos == 0
      invariant IsPrefix(cw.data, or.data) && cw.ResumesIn(or.data) && !cw.committed
      invariant old(Patient(cw, or)) && Matches(cw, or, size, expected) ==>
        Patient(cw, or) && MeetsExisting(cw.commits) == old(MeetsExisting(cw.commits))
      decreases |cw.script| + |cw.commits|
    {
      var a := Attempt(cw, or, size, expected, retry);
      if a.Some? {
        return a.value;
      }
      retry := true;
    }
  }

  /** CopyReaderAt, into a writer that accepts everything: up to `n` bytes from the writer's offset on. */
  method CopyReaderAt(cw: Sink, data: Data, n: int64) returns (ok: bool)
    requires cw.script == [] && 0 <= n && |data| <= MAX_INT64
    modifies cw
    ensures var k := Available(data, |old(cw.data)|, Some(n));
      (ok <==> k == n as int) && cw.data == old(cw.data) + Slice(data, |old(cw.data)|, k)
    ensures cw.script == [] && cw.commits == old(cw.commits) && cw.committed == old(cw.committed)
  {
    var ra := new Source(data, None);
    ra.Seek(|cw.data|);
    var copied, failure := CopyWithBuffer(cw, ra, Some(n));
    ok := copied >= n;
  }
}
