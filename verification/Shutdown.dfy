/**
  First failure wins (watchers/main.py, lines 17-75 and 163-186): worker threads
  and signal handlers against the shutdown tail of `main`, in any interleaving.
*/
module Shutdown {
  import opened Schema

  type Component = string
  type ErrorType = string

  /** What the threads share. */
  datatype Shared = Shared(
    failure: Option<(Component, ErrorType)>,
    stop: bool,
    /** The event loop has been asked to set the asynchronous event. */
    scheduled: bool)

  function Record(s: Shared, c: Component, e: ErrorType): Shared {
    if s.failure.None? then s.(failure := Some((c, e))) else s
  }

  function Trigger(s: Shared): Shared {
    s.(stop := true, scheduled := true)
  }

  class ShutdownController {
    var failure: Option<(Component, ErrorType)>
    var stop: bool
    var scheduled: bool

    function View(): Shared
      reads this
    {
      Shared(failure, stop, scheduled)
    }

    constructor ()
      ensures View() == Shared(None, false, false)
    {
      failure, stop, scheduled := None, false, false;
    }

    method RaiseStop() returns (first: bool)
      modifies this
      ensures View() == Trigger(old(View())) && first == !old(stop)
    {
      first := !stop;
      stop := true;
      scheduled := true;
    }

    /** The two halves of fail(); other threads may run between them. */
    method Fail(c: Component, e: ErrorType)
      modifies this
      ensures View() == Trigger(Record(old(View()), c, e))
    {
      if failure.None? { failure := Some((c, e)); }
      var _ := RaiseStop();
    }
  }

  // ------------------------------------------------------------- interleavings

  datatype Worker = Running | Recorded | Stopped(failed: bool)

  datatype Main = Waiting | Joining | Finished(read: Option<(Component, ErrorType)>)

  datatype State = State(shared: Shared, asyncEvent: bool, workers: map<Component, Worker>, main: Main,
                         raised: seq<(Component, ErrorType)>)

  datatype Step =
    | Raises(c: Component, e: ErrorType)
    | Triggers(c: Component)
    | Returns(c: Component)
    | Signal
    | LoopRuns
    | MainWakes
    | MainReads

  function Initial(): State {
    State(Shared(None, false, false), false, map[], Waiting, [])
  }

  function WorkerOf(s: State, c: Component): Worker {
    if c in s.workers then s.workers[c] else Running
  }

  function Do(s: State, step: Step): State {
    match step
    case Raises(c, e) =>
      if WorkerOf(s, c).Running? then
        s.(shared := Record(s.shared, c, e), workers := s.workers[c := Recorded], raised := s.raised + [(c, e)])
      else s
    case Triggers(c) =>
      if WorkerOf(s, c).Recorded? then s.(shared := Trigger(s.shared), workers := s.workers[c := Stopped(true)]) else s
    case Returns(c) => if WorkerOf(s, c).Running? then s.(workers := s.workers[c := Stopped(false)]) else s
    case Signal => s.(shared := Trigger(s.shared))
    case LoopRuns => if s.shared.scheduled then s.(asyncEvent := true) else s
    case MainWakes => if s.main.Waiting? && s.asyncEvent then s.(main := Joining, shared := s.shared.(stop := true)) else s
    case MainReads => if s.main.Joining? then s.(main := Finished(s.shared.failure)) else s
  }

  function RunFrom(s: State, steps: seq<Step>): State {
    if steps == [] then s else Do(RunFrom(s, steps[..|steps| - 1]), steps[|steps| - 1])
  }

  function Run(steps: seq<Step>): State {
    RunFrom(Initial(), steps)
  }

  /** The recorded failure is the first raise, and a worker past its trigger has left both marks. */
  ghost predicate Inv(s: State) {
    && s.shared.failure == (if s.raised == [] then None else Some(s.raised[0]))
    && (s.shared.stop ==> s.shared.scheduled)
    && (s.asyncEvent ==> s.shared.scheduled)
    && (forall c :: WorkerOf(s, c).Recorded? || WorkerOf(s, c) == Stopped(true) ==> s.raised != [])
    && (forall c :: WorkerOf(s, c) == Stopped(true) ==> s.shared.stop)
    && (s.main.Joining? ==> s.shared.stop && s.asyncEvent)
    && (s.main.Finished? ==> s.shared.stop && s.asyncEvent)
    && (s.main.Finished? && s.main.read.Some? ==> s.main.read == s.shared.failure)
  }

  lemma StepKeepsInv(s: State, step: Step)
    requires Inv(s)
    ensures Inv(Do(s, step))
  {
    var s' := Do(s, step);
    assert forall c :: WorkerOf(s', c) == WorkerOf(s, c) || step == Returns(c) || step == Triggers(c) || (step.Raises? && step.c == c);
  }

  lemma {:induction false} RunKeepsInv(steps: seq<Step>)
    ensures Inv(Run(steps))
  {
    if steps != [] {
      RunKeepsInv(steps[..|steps| - 1]);
      StepKeepsInv(Run(steps[..|steps| - 1]), steps[|steps| - 1]);
    }
  }

  lemma RunSnoc(steps: seq<Step>, step: Step)
    ensures Run(steps + [step]) == Do(Run(steps), step)
  {
    assert (steps + [step])[..|steps|] == steps;
  }

  lemma {:induction false} RunConcat(s: State, xs: seq<Step>, ys: seq<Step>)
    ensures RunFrom(s, xs + ys) == RunFrom(RunFrom(s, xs), ys)
    decreases |ys|
  {
    if ys == [] {
      assert xs + ys == xs;
    } else {
      assert (xs + ys)[..|xs + ys| - 1] == xs + ys[..|ys| - 1];
      RunConcat(s, xs, ys[..|ys| - 1]);
    }
  }

  /** Once set, the failure, the stop flag and main's result never change. */
  lemma {:induction false} NothingIsTakenBack(s: State, more: seq<Step>)
    ensures s.shared.failure.Some? ==> RunFrom(s, more).shared.failure == s.shared.failure
    ensures s.shared.stop ==> RunFrom(s, more).shared.stop
    ensures s.main.Finished? ==> RunFrom(s, more).main == s.main
    ensures s.raised <= RunFrom(s, more).raised
  {
    if more != [] { NothingIsTakenBack(s, more[..|more| - 1]); }
  }

  /** A completed fail() leaves a failure recorded, stop set, and main able to wake. */
  lemma FailLeavesItsMark(steps: seq<Step>, c: Component)
    requires WorkerOf(Run(steps), c) == Stopped(true)
    ensures var s := Run(steps).shared; s.failure.Some? && s.stop && s.scheduled
    ensures Run(steps + [LoopRuns]).asyncEvent
  {
    RunKeepsInv(steps);
    assert (steps + [LoopRuns])[..|steps|] == steps;
  }

  /**
    However the run goes on, main's tail ends with the first failure raised
    before it read the field: normally exactly when there was none.
  */
  lemma TailReportsFirstFailure(before: seq<Step>, after: seq<Step>)
    requires Run(before).main.Joining?
    ensures var raised := Run(before).raised;
      Run(before + [MainReads] + after).main == Finished(if raised == [] then None else Some(raised[0]))
  {
    RunKeepsInv(before);
    assert (before + [MainReads])[..|before|] == before;
    RunConcat(Initial(), before + [MainReads], after);
    NothingIsTakenBack(Run(before + [MainReads]), after);
  }

  /** A worker that fails after that is recorded, but main has already returned normally. */
  lemma LateFailureUnreported(c: Component, e: ErrorType)
    ensures var s := Run([Signal, LoopRuns, MainWakes, MainReads, Raises(c, e)]);
      s.main == Finished(None) && s.shared.failure == Some((c, e))
  {
    RunSnoc([], Signal);
    RunSnoc([] + [Signal], LoopRuns);
    RunSnoc([] + [Signal] + [LoopRuns], MainWakes);
    RunSnoc([] + [Signal] + [LoopRuns] + [MainWakes], MainReads);
    RunSnoc([] + [Signal] + [LoopRuns] + [MainWakes] + [MainReads], Raises(c, e));
    assert [] + [Signal] + [LoopRuns] + [MainWakes] + [MainReads] + [Raises(c, e)] == [Signal, LoopRuns, MainWakes, MainReads, Raises(c, e)];
  }
}
