/**
 The concurrent Dispatch as a state machine: a level of descriptors at a time,
 one goroutine for each descriptor that gets a permit of the limiter. Any
 interleaving of goroutines, handler outcomes, cancellation and other users of
 the same limiter is a run.
 */
module Dispatch {
  import opened Bytes
  import opened ImageTree

  const DEFAULT_MAX_CONCURRENCY := 32

  /** An admitted reference and the reference whose handler returned it. */
  datatype Item = Item(desc: Descriptor, parent: Option<nat>)

  /** How the handler of an item ended; its children were admitted as items first .. first + n. */
  datatype Finish = Admitted(first: nat, n: nat) | Skipped | Failed(error: Error) | Rejected

  datatype Result = Running | Returned(err: Option<Error>)

  /**
   `admitted` lists all references in the order of admission; the current level is
   lo .. hi, of which lo .. started have had their goroutine started, and what
   follows hi is `next`. `running` goroutines hold a permit. Those in `ending`
   have given theirs back, with the error that the group is about to learn.
   */
  datatype State = State(
    admitted: seq<Item>, lo: nat, hi: nat, started: nat, running: set<nat>, ending: map<nat, Option<Error>>,
    done: map<nat, Finish>, capacity: nat, free: nat, others: nat, err: Option<Error>, cancelled: bool,
    stopped: bool, result: Result)

  datatype Step =
    | Start
    | Stop
    | Return(i: nat, outcome: Outcome)
    | Settle(i: nat)
    | Wait
    | Cancel
    | Take
    | Give

  function Roots(descs: seq<Descriptor>): seq<Item> {
    seq(|descs|, j requires 0 <= j < |descs| => Item(descs[j], None))
  }

  function Offspring(i: nat, descs: seq<Descriptor>): seq<Item> {
    seq(|descs|, j requires 0 <= j < |descs| => Item(descs[j], Some(i)))
  }

  /** The limiter a nil one stands for is fresh; a caller's may have permits taken by others. */
  function Begin(limiter: Option<(nat, nat)>, cancelled: bool, descs: seq<Descriptor>): State {
    var capacity := if limiter.None? then DEFAULT_MAX_CONCURRENCY else limiter.value.0;
    var others := if limiter.None? then 0 else if limiter.value.1 <= capacity then limiter.value.1 else capacity;
    var s := State([], 0, 0, 0, {}, map[], map[], capacity, capacity - others, others, None, cancelled, false, Running);
    if descs == [] then s.(result := Returned(None))
    else if cancelled then s.(result := Returned(Some(Cancelled)))
    else if |descs| > MAX_REFERENCES then s.(result := Returned(Some(Exhausted)))
    else s.(admitted := Roots(descs), hi := |descs|)
  }

  /** Acquire gives up only when the group's context is done: a goroutine failed or the caller cancelled. */
  predicate Enabled(s: State, step: Step) {
    && s.result.Running?
    && match step
       case Start => !s.stopped && s.started < s.hi && s.free > 0
       case Stop => !s.stopped && s.started < s.hi && (s.err.Some? || s.cancelled)
       case Return(i, _) => i in s.running && i < |s.admitted|
       case Settle(i) => i in s.ending
       case Wait => (s.stopped || s.started == s.hi) && s.running == {} && s.ending == map[]
       case Cancel => !s.cancelled
       case Take => s.free > 0
       case Give => s.others > 0
  }

  /** A handler has returned and its children are offered to admit. */
  function Ended(s: State, i: nat, outcome: Outcome): (f: Finish) {
    match outcome
    case Skip => Skipped
    case Fail(e) => Failed(e)
    case Children(descs) =>
      if |s.admitted| + |descs| > MAX_REFERENCES then Rejected else Admitted(|s.admitted|, |descs|)
  }

  function ErrorOf(f: Finish): Option<Error> {
    match f
    case Failed(e) => Some(e)
    case Rejected => Some(Exhausted)
    case _ => None
  }

  function AfterReturn(s: State, i: nat, outcome: Outcome): State {
    var f := Ended(s, i, outcome);
    s.(running := s.running - {i}, free := s.free + 1, done := s.done[i := f], ending := s.ending[i := ErrorOf(f)],
       admitted := if f.Admitted? && outcome.Children? then s.admitted + Offspring(i, outcome.descs) else s.admitted)
  }

  function AfterWait(s: State): State {
    if s.err.Some? then s.(result := Returned(s.err))
    else if s.cancelled then s.(result := Returned(Some(Cancelled)))
    else if s.hi >= |s.admitted| then s.(result := Returned(None))
    else s.(lo := s.hi, started := s.hi, hi := |s.admitted|, stopped := false)
  }

  function Apply(s: State, step: Step): State
    requires Enabled(s, step)
  {
    match step
    case Start => s.(running := s.running + {s.started}, started := s.started + 1, free := s.free - 1)
    case Stop => s.(stopped := true)
    case Return(i, outcome) => AfterReturn(s, i, outcome)
    case Settle(i) => s.(ending := s.ending - {i}, err := if s.err.Some? then s.err else s.ending[i])
    case Wait => AfterWait(s)
    case Cancel => s.(cancelled := true)
    case Take => s.(free := s.free - 1, others := s.others + 1)
    case Give => s.(free := s.free + 1, others := s.others - 1)
  }

  ghost predicate Legal(s: State, steps: seq<Step>)
    decreases |steps|
  {
    steps != [] ==> Enabled(s, steps[0]) && Legal(Apply(s, steps[0]), steps[1..])
  }

  ghost function Exec(s: State, steps: seq<Step>): State
    requires Legal(s, steps)
    decreases |steps|
  {
    if steps == [] then s else Exec(Apply(s, steps[0]), steps[1..])
  }

  // What every run keeps.

  ghost predicate Fault(f: Finish) {
    f.Failed? || f.Rejected?
  }

  /** The handler calls made are those of items 0 .. started: each one made once, and running or done. */
  ghost predicate Placed(s: State) {
    && s.lo <= s.started <= s.hi <= |s.admitted| <= MAX_REFERENCES
    && (s.result.Running? ==> s.lo < s.hi)
    && (forall i :: i in s.running ==> s.lo <= i < s.started && i !in s.done)
    && (forall i :: i in s.ending ==> s.lo <= i < s.started && i in s.done)
    && (forall i :: i in s.done ==> i < s.started)
    && (forall i: nat :: i < s.started ==> i in s.running || i in s.done)
    && (s.result.Returned? ==> s.running == {} && s.ending == map[])
  }

  /** Every permit is free, with one of this call's running handlers, or with another user. */
  ghost predicate Permits(s: State) {
    s.free + |s.running| + s.others == s.capacity
  }

  /** A child was admitted because its parent's handler had already returned it. */
  ghost predicate Linked(s: State) {
    && (forall i :: i in s.done && s.done[i].Admitted? ==>
        i < s.done[i].first && s.done[i].first + s.done[i].n <= |s.admitted|)
    && (forall j :: 0 <= j < |s.admitted| && s.admitted[j].parent.Some? ==>
          var p := s.admitted[j].parent.value;
          p in s.done && s.done[p].Admitted? && s.done[p].first <= j < s.done[p].first + s.done[p].n)
  }

  /** A failure is on its way to the caller. */
  ghost predicate Reported(s: State) {
    && (forall i :: i in s.done && Fault(s.done[i]) ==> s.err.Some? || (i in s.ending && s.ending[i].Some?))
    && (s.stopped ==> s.err.Some? || s.cancelled)
    && (s.result == Returned(None) ==> s.err.None? && s.started == |s.admitted|)
  }

  /** Some handler that was called has ended in this error, or its children went over the limit. */
  ghost predicate EndedIn(s: State, e: Option<Error>) {
    exists i :: i in s.done && Fault(s.done[i]) && ErrorOf(s.done[i]) == e
  }

  /** What the group is about to learn, has learnt and has returned. */
  ghost predicate Sourced(s: State) {
    && (forall i :: i in s.ending ==> i in s.done && s.ending[i] == ErrorOf(s.done[i]))
    && (s.err.Some? ==> EndedIn(s, s.err))
    && (s.result.Returned? && s.err.Some? ==> s.result.err == s.err)
    && (s.result.Returned? && s.result.err.Some? ==>
          || s.result.err == s.err
          || (s.result.err == Some(Cancelled) && s.cancelled)
          || (s.result.err == Some(Exhausted) && s.admitted == []))
  }

  ghost predicate Inv(s: State) {
    Placed(s) && Permits(s) && Linked(s) && Reported(s)
  }

  lemma BeginInv(limiter: Option<(nat, nat)>, cancelled: bool, descs: seq<Descriptor>)
    ensures Inv(Begin(limiter, cancelled, descs))
  {
  }

  lemma PlacedKept(s: State, step: Step)
    requires Enabled(s, step) && Placed(s) && Reported(s)
    ensures Placed(Apply(s, step))
  {
  }

  lemma OneMore(a: set<nat>, x: nat)
    requires x !in a
    ensures |a + {x}| == |a| + 1
  {
  }

  lemma OneLess(a: set<nat>, x: nat)
    requires x in a
    ensures |a - {x}| == |a| - 1
  {
  }

  lemma FreshStart(s: State)
    requires Placed(s)
    ensures s.started !in s.running
  {
  }

  lemma PermitsKept(s: State, step: Step)
    requires Enabled(s, step) && Placed(s) && Permits(s)
    ensures Permits(Apply(s, step))
  {
    hide Placed;
    FreshStart(s);
    OneMore(s.running, s.started);
    if step.Return? {
      hide Ended;
      OneLess(s.running, step.i);
    }
  }

  lemma LinkedKept(s: State, step: Step)
    requires Enabled(s, step) && Placed(s) && Linked(s)
    ensures Linked(Apply(s, step))
  {
  }

  lemma ReportedKept(s: State, step: Step)
    requires Enabled(s, step) && Placed(s) && Reported(s)
    ensures Reported(Apply(s, step))
  {
  }

  lemma StepKeeps(s: State, step: Step)
    requires Enabled(s, step) && Inv(s)
    ensures Inv(Apply(s, step))
  {
    hide Placed;
    hide Permits;
    hide Linked;
    hide Reported;
    hide Apply;
    PlacedKept(s, step);
    PermitsKept(s, step);
    LinkedKept(s, step);
    ReportedKept(s, step);
  }

  lemma {:induction false} RunKeeps(s: State, steps: seq<Step>)
    requires Inv(s) && Legal(s, steps)
    ensures Inv(Exec(s, steps))
    decreases |steps|
  {
    hide Inv;
    hide Apply;
    hide Enabled;
    if steps != [] {
      StepKeeps(s, steps[0]);
      RunKeeps(Apply(s, steps[0]), steps[1..]);
    }
  }

  lemma SourcedKept(s: State, step: Step)
    requires Enabled(s, step) && Placed(s) && Sourced(s)
    ensures Sourced(Apply(s, step))
  {
    var s' := Apply(s, step);
    if s.err.Some? {
      var i :| i in s.done && Fault(s.done[i]) && ErrorOf(s.done[i]) == s.err;
      assert i in s'.done && s'.done[i] == s.done[i];
    } else if step.Settle? && s'.err.Some? {
      assert step.i in s'.done && Fault(s'.done[step.i]);
    }
  }

  lemma {:induction false} RunSourced(s: State, steps: seq<Step>)
    requires Inv(s) && Sourced(s) && Legal(s, steps)
    ensures Sourced(Exec(s, steps))
    decreases |steps|
  {
    hide Sourced;
    hide Placed;
    hide Permits;
    hide Linked;
    hide Reported;
    hide Apply;
    hide Enabled;
    if steps != [] {
      StepKeeps(s, steps[0]);
      SourcedKept(s, steps[0]);
      RunSourced(Apply(s, steps[0]), steps[1..]);
    }
  }

  /** Nothing is admitted only if the call has returned at once. */
  lemma {:induction false} BeginsOnce(s: State, steps: seq<Step>)
    requires Inv(s) && Legal(s, steps)
    ensures Exec(s, steps).admitted == [] ==> Exec(s, steps) == s
    decreases |steps|
  {
    if steps != [] {
      StepKeeps(s, steps[0]);
      BeginsOnce(Apply(s, steps[0]), steps[1..]);
    }
  }

  /**
   A call that fails returns the error of a handler that was called, or that the limit
   is exceeded: by the roots themselves or by what a called handler returned. It is
   cancellation only if it was cancelled and no handler has failed.
   */
  lemma ErrorsExplained(limiter: Option<(nat, nat)>, cancelled: bool, descs: seq<Descriptor>, steps: seq<Step>)
    requires Legal(Begin(limiter, cancelled, descs), steps)
    ensures var s := Exec(Begin(limiter, cancelled, descs), steps);
      s.result.Returned? && s.result.err.Some? ==>
        var e := s.result.err.value;
        || (e == Cancelled && s.cancelled && forall i :: i in s.done ==> !Fault(s.done[i]))
        || (e == Exhausted && |descs| > 10_000)
        || (e == Exhausted && exists i :: i in s.done && s.done[i] == Rejected)
        || (exists i :: i in s.done && s.done[i] == Failed(e))
  {
    hide Apply;
    hide Enabled;
    hide Permits;
    hide Linked;
    var b := Begin(limiter, cancelled, descs);
    BeginInv(limiter, cancelled, descs);
    RunKeeps(b, steps);
    RunSourced(b, steps);
    BeginsOnce(b, steps);
  }

  /**
   Whatever the schedule: no more than 10,000 handler calls, permits conserved,
   children only after their parent, and nil only when the handlers of all
   admitted references have been called and returned nil or ErrSkipDesc.
   */
  lemma EveryRun(limiter: Option<(nat, nat)>, cancelled: bool, descs: seq<Descriptor>, steps: seq<Step>)
    requires Legal(Begin(limiter, cancelled, descs), steps)
    ensures var s := Exec(Begin(limiter, cancelled, descs), steps);
      && s.started <= |s.admitted| <= 10_000
      && s.free + |s.running| + s.others == s.capacity
      && (s.result.Returned? ==> s.free + s.others == s.capacity)
      && (forall j: nat :: j < s.started && s.admitted[j].parent.Some? ==> s.admitted[j].parent.value in s.done)
      && (s.result == Returned(None) ==>
            forall j: nat :: j < |s.admitted| ==> j in s.done && (s.done[j].Admitted? || s.done[j].Skipped?))
  {
    BeginInv(limiter, cancelled, descs);
    RunKeeps(Begin(limiter, cancelled, descs), steps);
  }

  // Termination.

  predicate Own(step: Step) {
    !step.Take? && !step.Give?
  }

  ghost function OwnSteps(steps: seq<Step>): nat {
    if steps == [] then 0 else (if Own(steps[0]) then 1 else 0) + OwnSteps(steps[1..])
  }

  ghost function Work(s: State): int {
    3 * (MAX_REFERENCES - s.started) + (MAX_REFERENCES - s.lo) + 2 * |s.running| + |s.ending|
    + (if s.stopped then 0 else 1) + (if s.cancelled then 0 else 1) + (if s.result.Returned? then 0 else 1)
  }

  lemma EndingGrows(s: State, i: nat, e: Option<Error>)
    requires Placed(s) && i in s.running
    ensures |s.ending[i := e]| == |s.ending| + 1
  {
    OneMore(s.ending.Keys, i);
    assert s.ending[i := e].Keys == s.ending.Keys + {i};
  }

  lemma EndingShrinks(s: State, i: nat)
    requires i in s.ending
    ensures |s.ending - {i}| == |s.ending| - 1
  {
    assert (s.ending - {i}).Keys == s.ending.Keys - {i};
  }

  lemma StepWorks(s: State, step: Step)
    requires Enabled(s, step) && Inv(s)
    ensures Work(Apply(s, step)) <= Work(s) - (if Own(step) then 1 else 0)
  {
    hide Ended;
    hide Linked;
    hide Permits;
    match step
    case Start =>
      OneMore(s.running, s.started);
    case Return(i, o) =>
      OneLess(s.running, i);
      EndingGrows(s, i, ErrorOf(Ended(s, i, o)));
    case Settle(i) =>
      EndingShrinks(s, i);
    case _ =>
  }

  /** Every own step uses up work, however the others interleave. */
  lemma {:induction false} RunsEnd(s: State, steps: seq<Step>)
    requires Inv(s) && Legal(s, steps)
    ensures OwnSteps(steps) + Work(Exec(s, steps)) <= Work(s) && Work(Exec(s, steps)) >= 0
    decreases |steps|
  {
    hide Inv;
    hide Apply;
    hide Enabled;
    hide Work;
    if steps == [] {
      WorkBounds(s);
    } else {
      StepKeeps(s, steps[0]);
      StepWorks(s, steps[0]);
      RunsEnd(Apply(s, steps[0]), steps[1..]);
    }
  }

  lemma WorkBounds(s: State)
    requires Inv(s)
    ensures Work(s) >= 0
    ensures s.started == s.lo == 0 && s.running == {} && s.ending == map[] ==> Work(s) <= 4 * MAX_REFERENCES + 3
  {
  }

  /** A call that has not returned can take a step of its own unless every permit is with other users. */
  lemma Progress(s: State)
    requires Inv(s) && s.result.Running?
    ensures (exists step :: Own(step) && !step.Cancel? && Enabled(s, step)) <==>
      !(s.others == s.capacity && s.ending == map[] && s.started < s.hi && s.err.None? && !s.cancelled)
  {
    if s.running != {} {
      var i :| i in s.running;
      assert Enabled(s, Return(i, Skip));
    } else if s.ending != map[] {
      var i :| i in s.ending;
      assert Enabled(s, Settle(i));
    } else if s.stopped || s.started == s.hi {
      assert Enabled(s, Wait);
    } else if s.free > 0 {
      assert Enabled(s, Start);
    } else if s.err.Some? || s.cancelled {
      assert Enabled(s, Stop);
    }
  }

  /** A call takes at most 40,003 steps of its own, on cyclic graphs too. */
  lemma CallEnds(limiter: Option<(nat, nat)>, cancelled: bool, descs: seq<Descriptor>, steps: seq<Step>)
    requires Legal(Begin(limiter, cancelled, descs), steps)
    ensures OwnSteps(steps) <= 40_003
  {
    var b := Begin(limiter, cancelled, descs);
    BeginInv(limiter, cancelled, descs);
    RunsEnd(b, steps);
    WorkBounds(b);
  }

  // A limiter that no one else uses.

  lemma {:induction false} NoOthers(s: State, steps: seq<Step>)
    requires Legal(s, steps) && s.others == 0 && forall i :: 0 <= i < |steps| ==> Own(steps[i])
    ensures Exec(s, steps).others == 0 && Exec(s, steps).capacity == s.capacity
    decreases |steps|
  {
    if steps != [] {
      assert Own(steps[0]);
      NoOthers(Apply(s, steps[0]), steps[1..]);
    }
  }

  /**
   With a limiter private to the call, such as the one a nil limiter stands for,
   running handlers and free permits make up the capacity, and a call that has not
   returned can always take a step. So it returns, within 40,003 steps.
   */
  lemma PrivateLimiter(limiter: Option<(nat, nat)>, cancelled: bool, descs: seq<Descriptor>, steps: seq<Step>)
    requires limiter.None? || (limiter.value.0 > 0 && limiter.value.1 == 0)
    requires Legal(Begin(limiter, cancelled, descs), steps) && forall i :: 0 <= i < |steps| ==> Own(steps[i])
    ensures var s := Exec(Begin(limiter, cancelled, descs), steps);
      && s.others == 0 && s.free + |s.running| == s.capacity
      && s.capacity == (if limiter.None? then 32 else limiter.value.0)
      && (s.result.Running? ==> exists step :: Own(step) && !step.Cancel? && Enabled(s, step))
    ensures |steps| <= 40_003
  {
    hide Enabled;
    hide Apply;
    var b := Begin(limiter, cancelled, descs);
    BeginInv(limiter, cancelled, descs);
    RunKeeps(b, steps);
    NoOthers(b, steps);
    CallEnds(limiter, cancelled, descs, steps);
    AllOwn(steps);
    if Exec(b, steps).result.Running? {
      Progress(Exec(b, steps));
    }
  }

  lemma {:induction false} AllOwn(steps: seq<Step>)
    requires forall i :: 0 <= i < |steps| ==> Own(steps[i])
    ensures OwnSteps(steps) == |steps|
    decreases |steps|
  {
    if steps != [] {
      AllOwn(steps[1..]);
    }
  }
}
