/** The frame channel from internal/busybar/client.go to the loops of runner.Run, as a transition system: the
    reading goroutine, any number of concurrent Close calls, and the runner's loop, its own Close and its drain.
    A step that is not enabled leaves the state as it is. */
module FrameChannel {
  import opened Basics

  type Frame = seq<byte>

  /** The goroutine Start launches: running, its run returned, the channel closed, and done with the wait group. */
  datatype Reader = NotStarted | Running | Returned | PastClose | Done

  /** A call of Close: it has read the cancel function (if any), cancelled, or finished waiting.  `started`: there
      was a cancel function to read. */
  datatype Closer = HasCancel(started: bool) | Waiting(started: bool) | Closing

  datatype Runner = Looping | Leaving | InClose | Draining | Finished

  /** The runner's own call of Close. */
  const RUNNER: nat := 0

  /** A binary frame read from the socket, and whether the channel had room for it. */
  datatype Arrival = Arrival(frame: Frame, kept: bool)

  /** `arrivals` and `handled` are history: the binary frames read and those the runner handled. */
  datatype Flow = Flow(capacity: nat, buffer: seq<Frame>, overflowCount: nat,
                       arrivals: seq<Arrival>, handled: seq<Frame>)

  /** `parentDone` and `cancelled`: the context given to Start and the one derived from it.  `closes` and
      `lateStart` are history: how often the channel was closed, and whether Start came too late (see TooLate). */
  datatype Gate = Gate(channelClosed: bool, onceDone: bool, started: bool, parentDone: bool, cancelled: bool,
                       reader: Reader, closers: map<nat, Closer>, closes: nat, lateStart: bool, panicked: bool)

  datatype State = State(flow: Flow, gate: Gate, runner: Runner)

  datatype Step =
    | Start
    | ReadBinary(frame: Frame)
    | RunReturns
    | ReaderCloses
    | ReaderDone
    | CloseBegins(k: nat)
    | CloseCancels(k: nat)
    | CloseWaits(k: nat)
    | CloseOnce(k: nat)
    | CancelParent
    | RunnerTakes
    | RunnerLeaves
    | RunnerCloses
    | RunnerClosed
    | DrainTakes
    | DrainEnds

  function Init(capacity: nat): State {
    State(Flow(capacity, [], 0, [], []),
          Gate(false, false, false, false, false, NotStarted, map[], 0, false, false), Looping)
  }

  // ---- The channel's ends ----

  function Arrive(f: Flow, frame: Frame): Flow {
    if |f.buffer| < f.capacity then
      f.(buffer := f.buffer + [frame], arrivals := f.arrivals + [Arrival(frame, true)])
    else
      f.(overflowCount := f.overflowCount + 1, arrivals := f.arrivals + [Arrival(frame, false)])
  }

  function Take(f: Flow): Flow {
    if |f.buffer| > 0 then f.(handled := f.handled + [f.buffer[0]], buffer := f.buffer[1..]) else f
  }

  // ---- Start, Close and the reader ----

  /** closeOnce.Do(close): closing a closed channel panics. */
  function ClosedOnce(g: Gate): Gate {
    if g.onceDone then g
    else if g.channelClosed then g.(panicked := true, onceDone := true)
    else g.(channelClosed := true, onceDone := true, closes := g.closes + 1)
  }

  /** The wait group is at zero. */
  predicate NobodyToWaitFor(reader: Reader) {
    reader.NotStarted? || reader.Done?
  }

  /** Some Close has stopped waiting for the reading goroutine. */
  predicate TooLate(g: Gate) {
    g.channelClosed || exists k :: k in g.closers && g.closers[k].Closing?
  }

  function Started(g: Gate): Gate {
    if g.started then g else g.(started := true, reader := Running, lateStart := TooLate(g))
  }

  function BeginClose(g: Gate, k: nat): Gate {
    if k in g.closers then g else g.(closers := g.closers[k := HasCancel(g.started)])
  }

  function CancelBy(g: Gate, k: nat): Gate {
    if k in g.closers && g.closers[k].HasCancel? then
      g.(cancelled := g.cancelled || g.closers[k].started, closers := g.closers[k := Waiting(g.closers[k].started)])
    else g
  }

  function WaitBy(g: Gate, k: nat): Gate {
    if k in g.closers && g.closers[k].Waiting? && NobodyToWaitFor(g.reader) then
      g.(closers := g.closers[k := Closing])
    else g
  }

  function CloseBy(g: Gate, k: nat): Gate {
    if k in g.closers && g.closers[k].Closing? then ClosedOnce(g).(closers := g.closers - {k}) else g
  }

  function AfterReader(g: Gate, step: Step): Gate {
    match step
    case ReadBinary(_) => if g.reader.Running? && g.channelClosed then g.(panicked := true) else g
    case RunReturns => if g.reader.Running? && (g.cancelled || g.parentDone) then g.(reader := Returned) else g
    case ReaderCloses => if g.reader.Returned? then ClosedOnce(g).(reader := PastClose) else g
    case ReaderDone => if g.reader.PastClose? then g.(reader := Done) else g
    case CancelParent => g.(parentDone := true)
    case _ => g
  }

  function Do(s: State, step: Step): State {
    match step
    case Start => s.(gate := Started(s.gate))
    case ReadBinary(frame) =>
      s.(flow := if s.gate.reader.Running? && !s.gate.channelClosed then Arrive(s.flow, frame) else s.flow,
         gate := AfterReader(s.gate, step))
    case CloseBegins(k) => if k == RUNNER then s else s.(gate := BeginClose(s.gate, k))
    case CloseCancels(k) => s.(gate := CancelBy(s.gate, k))
    case CloseWaits(k) => s.(gate := WaitBy(s.gate, k))
    case CloseOnce(k) => s.(gate := CloseBy(s.gate, k))
    case RunnerTakes => if s.runner.Looping? then s.(flow := Take(s.flow)) else s
    case RunnerLeaves =>
      if s.runner.Looping? && (s.gate.parentDone || (s.gate.channelClosed && s.flow.buffer == [])) then
        s.(runner := Leaving)
      else s
    case RunnerCloses => if s.runner.Leaving? then s.(gate := BeginClose(s.gate, RUNNER), runner := InClose) else s
    case RunnerClosed => if s.runner.InClose? && RUNNER !in s.gate.closers then s.(runner := Draining) else s
    case DrainTakes => if s.runner.Draining? then s.(flow := Take(s.flow)) else s
    case DrainEnds => if s.runner.Draining? && s.flow.buffer == [] then s.(runner := Finished) else s
    case _ => s.(gate := AfterReader(s.gate, step))
  }

  // ---- The invariant ----

  function Kept(arrivals: seq<Arrival>): seq<Frame> {
    if arrivals == [] then []
    else
      var n := |arrivals| - 1;
      Kept(arrivals[..n]) + (if arrivals[n].kept then [arrivals[n].frame] else [])
  }

  function Dropped(arrivals: seq<Arrival>): nat {
    if arrivals == [] then 0
    else Dropped(arrivals[..|arrivals| - 1]) + (if arrivals[|arrivals| - 1].kept then 0 else 1)
  }

  /** Frames read are handled, buffered or counted as overflow, and order is kept. */
  ghost predicate FlowInv(f: Flow) {
    && f.handled + f.buffer == Kept(f.arrivals)
    && f.overflowCount == Dropped(f.arrivals)
    && |f.buffer| <= f.capacity
  }

  ghost predicate GateInv(g: Gate) {
    && !g.panicked
    && (g.onceDone <==> g.channelClosed)
    && g.closes == (if g.channelClosed then 1 else 0)
    && (g.started <==> !g.reader.NotStarted?)
    && (g.channelClosed ==> !g.reader.Running? && !g.reader.Returned?)
    && (g.reader.PastClose? || g.reader.Done? ==> g.channelClosed)
    && (forall k :: k in g.closers && g.closers[k].Closing? ==> NobodyToWaitFor(g.reader))
    && (forall k :: k in g.closers && g.closers[k].Waiting? && g.closers[k].started ==> g.cancelled)
  }

  ghost predicate RunnerInv(runner: Runner, g: Gate, buffer: seq<Frame>) {
    && (runner.Looping? || runner.Leaving? ==> RUNNER !in g.closers)
    && (runner.InClose? && RUNNER !in g.closers ==> g.channelClosed && NobodyToWaitFor(g.reader))
    && (runner.Draining? || runner.Finished? ==> g.channelClosed && NobodyToWaitFor(g.reader))
    && (runner.Finished? ==> buffer == [])
  }

  ghost predicate LateIsStarted(g: Gate) {
    g.lateStart ==> g.started
  }

  /** A late Start is never forgotten. */
  ghost predicate Remembers(g: Gate, after: Gate) {
    LateIsStarted(after) && (g.lateStart ==> after.lateStart)
  }

  ghost predicate Inv(s: State) {
    && FlowInv(s.flow)
    && LateIsStarted(s.gate)
    && (!s.gate.lateStart ==> GateInv(s.gate) && RunnerInv(s.runner, s.gate, s.flow.buffer))
  }

  lemma InitInv(capacity: nat)
    ensures Inv(Init(capacity))
  {
  }

  lemma ArriveKeepsInv(f: Flow, frame: Frame)
    requires FlowInv(f)
    ensures FlowInv(Arrive(f, frame))
  {
    var f' := Arrive(f, frame);
    assert f'.arrivals[..|f.arrivals|] == f.arrivals;
    assert f.handled + (f.buffer + [frame]) == (f.handled + f.buffer) + [frame];
  }

  lemma TakeKeepsInv(f: Flow)
    requires FlowInv(f)
    ensures FlowInv(Take(f))
  {
    if |f.buffer| > 0 {
      assert (f.handled + [f.buffer[0]]) + f.buffer[1..] == f.handled + f.buffer;
    }
  }

  /** What a step of Start, Close or the reader keeps, and that it does not undo what the runner relies on. */
  lemma GateStepsKeepInv(g: Gate, k: nat, step: Step)
    requires GateInv(g) && !g.lateStart
    ensures !Started(g).lateStart ==> GateInv(Started(g))
    ensures GateInv(BeginClose(g, k)) && GateInv(CancelBy(g, k)) && GateInv(WaitBy(g, k)) && GateInv(CloseBy(g, k))
    ensures GateInv(AfterReader(g, step))
  {
  }

  lemma RunnerRelies(runner: Runner, g: Gate, buffer: seq<Frame>, k: nat)
    requires GateInv(g) && !g.lateStart && RunnerInv(runner, g, buffer)
    ensures RunnerInv(runner, CancelBy(g, k), buffer) && RunnerInv(runner, WaitBy(g, k), buffer)
    ensures RunnerInv(runner, CloseBy(g, k), buffer)
  {
    hide TooLate;
  }

  lemma RunnerReliesOnReader(runner: Runner, g: Gate, buffer: seq<Frame>, k: nat, step: Step)
    requires GateInv(g) && !g.lateStart && RunnerInv(runner, g, buffer)
    ensures !Started(g).lateStart ==> RunnerInv(runner, Started(g), buffer)
    ensures RunnerInv(runner, AfterReader(g, step), buffer)
    ensures k != RUNNER ==> RunnerInv(runner, BeginClose(g, k), buffer)
    ensures runner.Leaving? ==> RunnerInv(InClose, BeginClose(g, RUNNER), buffer)
  {
  }

  lemma FlowKept(s: State, step: Step)
    requires FlowInv(s.flow)
    ensures FlowInv(Do(s, step).flow)
  {
    hide FlowInv, Take, Arrive;
    TakeKeepsInv(s.flow);
    match step
    case ReadBinary(frame) => ArriveKeepsInv(s.flow, frame);
    case _ =>
  }

  lemma GateKept(s: State, step: Step)
    requires !s.gate.lateStart && !Do(s, step).gate.lateStart
    requires GateInv(s.gate) && RunnerInv(s.runner, s.gate, s.flow.buffer)
    ensures GateInv(Do(s, step).gate)
  {
    hide GateInv, RunnerInv, Started, BeginClose, CancelBy, WaitBy, CloseBy, AfterReader, Take, Arrive;
    match step
    case CloseBegins(k) => GateStepsKeepInv(s.gate, k, step);
    case CloseCancels(k) => GateStepsKeepInv(s.gate, k, step);
    case CloseWaits(k) => GateStepsKeepInv(s.gate, k, step);
    case CloseOnce(k) => GateStepsKeepInv(s.gate, k, step);
    case _ => GateStepsKeepInv(s.gate, RUNNER, step);
  }

  lemma RunnerKept(s: State, step: Step)
    requires !s.gate.lateStart && !Do(s, step).gate.lateStart
    requires GateInv(s.gate) && RunnerInv(s.runner, s.gate, s.flow.buffer)
    ensures RunnerInv(Do(s, step).runner, Do(s, step).gate, Do(s, step).flow.buffer)
  {
    hide Started, BeginClose, CancelBy, WaitBy, CloseBy, AfterReader;
    match step
    case CloseBegins(k) => RunnerReliesOnReader(s.runner, s.gate, s.flow.buffer, k, step);
    case CloseCancels(k) => RunnerRelies(s.runner, s.gate, s.flow.buffer, k);
    case CloseWaits(k) => RunnerRelies(s.runner, s.gate, s.flow.buffer, k);
    case CloseOnce(k) => RunnerRelies(s.runner, s.gate, s.flow.buffer, k);
    case _ => RunnerReliesOnReader(s.runner, s.gate, s.flow.buffer, RUNNER, step);
  }

  lemma GateStepsRememberLate(g: Gate, k: nat, step: Step)
    requires LateIsStarted(g)
    ensures Remembers(g, g)
    ensures Remembers(g, Started(g)) && Remembers(g, BeginClose(g, k)) && Remembers(g, AfterReader(g, step))
  {
    hide TooLate;
  }

  lemma CloseStepsRememberLate(g: Gate, k: nat)
    requires LateIsStarted(g)
    ensures Remembers(g, CancelBy(g, k)) && Remembers(g, WaitBy(g, k)) && Remembers(g, CloseBy(g, k))
  {
  }

  lemma CapacityIsFixed(s: State, step: Step)
    ensures Do(s, step).flow.capacity == s.flow.capacity
  {
    hide Started, BeginClose, CancelBy, WaitBy, CloseBy, AfterReader;
  }

  lemma LateStartStays(s: State, step: Step)
    requires LateIsStarted(s.gate)
    ensures Remembers(s.gate, Do(s, step).gate)
  {
    hide Remembers, LateIsStarted, Started, BeginClose, CancelBy, WaitBy, CloseBy, AfterReader, Take, Arrive;
    match step
    case CloseBegins(k) => GateStepsRememberLate(s.gate, k, step);
    case CloseCancels(k) => CloseStepsRememberLate(s.gate, k);
    case CloseWaits(k) => CloseStepsRememberLate(s.gate, k);
    case CloseOnce(k) => CloseStepsRememberLate(s.gate, k);
    case _ => GateStepsRememberLate(s.gate, RUNNER, step);
  }

  lemma StepKeepsInv(s: State, step: Step)
    requires Inv(s)
    ensures Inv(Do(s, step))
  {
    hide FlowInv, GateInv, RunnerInv, Do;
    FlowKept(s, step);
    LateStartStays(s, step);
    if !s.gate.lateStart && !Do(s, step).gate.lateStart {
      GateKept(s, step);
      RunnerKept(s, step);
    }
  }

  function Run(s: State, steps: seq<Step>): State {
    if steps == [] then s else Do(Run(s, steps[..|steps| - 1]), steps[|steps| - 1])
  }

  lemma {:induction false} RunKeepsInv(s: State, steps: seq<Step>)
    requires Inv(s)
    ensures Inv(Run(s, steps)) && Run(s, steps).flow.capacity == s.flow.capacity
    ensures s.gate.lateStart ==> Run(s, steps).gate.lateStart
  {
    hide FlowInv, GateInv, RunnerInv, Do;
    if steps != [] {
      RunKeepsInv(s, steps[..|steps| - 1]);
      StepKeepsInv(Run(s, steps[..|steps| - 1]), steps[|steps| - 1]);
      LateStartStays(Run(s, steps[..|steps| - 1]), steps[|steps| - 1]);
      CapacityIsFixed(Run(s, steps[..|steps| - 1]), steps[|steps| - 1]);
    }
  }

  ghost predicate Reachable(capacity: nat, s: State) {
    exists steps :: s == Run(Init(capacity), steps)
  }

  lemma ReachableKeepsInv(capacity: nat, s: State)
    requires Reachable(capacity, s)
    ensures Inv(s) && s.flow.capacity == capacity
  {
    hide Inv, Do;
    var steps :| s == Run(Init(capacity), steps);
    InitInv(capacity);
    RunKeepsInv(Init(capacity), steps);
  }

  // ---- What every run does ----

  /** Unless Start comes too late, no run sends on or closes a closed channel, the channel is
      closed at most once, and nothing is read into it after that. */
  lemma ChannelIsClosedOnce(capacity: nat, s: State, next: Step)
    requires Reachable(capacity, s) && !s.gate.lateStart
    ensures !s.gate.panicked
    ensures s.gate.closes == (if s.gate.channelClosed then 1 else 0)
    ensures s.gate.channelClosed ==> Do(s, next).flow.arrivals == s.flow.arrivals
  {
    ReachableKeepsInv(capacity, s);
    hide Run, Reachable, FlowInv, RunnerInv;
  }

  lemma {:induction false} KeptAndDropped(arrivals: seq<Arrival>)
    ensures |Kept(arrivals)| + Dropped(arrivals) == |arrivals|
  {
    if arrivals != [] {
      KeptAndDropped(arrivals[..|arrivals| - 1]);
    }
  }

  /** In every reachable state the frames read, less those that overflowed, are those handled and then those
      buffered, in the order they arrived, and the buffer never exceeds its capacity. */
  lemma FramesAreConserved(capacity: nat, s: State)
    requires Reachable(capacity, s)
    ensures var f := s.flow;
            && f.handled + f.buffer == Kept(f.arrivals)
            && f.overflowCount == Dropped(f.arrivals)
            && |f.arrivals| == f.overflowCount + |f.handled| + |f.buffer|
            && |f.buffer| <= capacity
  {
    ReachableKeepsInv(capacity, s);
    KeptAndDropped(s.flow.arrivals);
    hide Run, Reachable, GateInv, RunnerInv, Kept, Dropped;
  }

  lemma {:induction false} FinishedIsFinal(s: State, more: seq<Step>)
    requires Inv(s) && s.runner.Finished?
    requires !Run(s, more).gate.lateStart
    ensures var t := Run(s, more);
            && Inv(t) && t.runner.Finished?
            && t.flow.arrivals == s.flow.arrivals && t.flow.handled == s.flow.handled
  {
    hide FlowInv, Do;
    if more != [] {
      var before := Run(s, more[..|more| - 1]);
      RunKeepsInv(s, more[..|more| - 1]);
      LateStartStays(before, more[|more| - 1]);
      FinishedIsFinal(s, more[..|more| - 1]);
      FinishedStep(before, more[|more| - 1]);
      StepKeepsInv(before, more[|more| - 1]);
    }
  }

  lemma FinishedStep(s: State, step: Step)
    requires Inv(s) && s.runner.Finished? && !s.gate.lateStart
    ensures Do(s, step).runner.Finished?
    ensures Do(s, step).flow.arrivals == s.flow.arrivals && Do(s, step).flow.handled == s.flow.handled
  {
    hide FlowInv;
  }

  /** When the drain is over every frame ever read has been handled or counted as overflow, each handled once and
      in the order of arrival, the channel is closed, and that stays so whatever happens next. */
  lemma ShutdownLosesNoFrame(capacity: nat, end: State, more: seq<Step>)
    requires Reachable(capacity, end) && end.runner.Finished?
    requires !Run(end, more).gate.lateStart
    ensures var s := Run(end, more);
            && s.gate.channelClosed && s.gate.closes == 1 && s.flow.buffer == []
            && s.flow.handled == Kept(s.flow.arrivals)
            && |s.flow.arrivals| == s.flow.overflowCount + |s.flow.handled|
            && s.flow.arrivals == end.flow.arrivals && s.flow.handled == end.flow.handled
  {
    ReachableKeepsInv(capacity, end);
    FinishedIsFinal(end, more);
    var s := Run(end, more);
    KeptAndDropped(s.flow.arrivals);
    hide Run, Kept, Dropped;
    assert s.flow.handled + [] == s.flow.handled;
  }

  ghost predicate InTime(g: Gate) {
    g.started && !g.lateStart
  }

  lemma GateStepsKeepInTime(g: Gate, k: nat, step: Step)
    requires InTime(g)
    ensures InTime(Started(g)) && InTime(BeginClose(g, k)) && InTime(CancelBy(g, k))
    ensures InTime(WaitBy(g, k)) && InTime(CloseBy(g, k)) && InTime(AfterReader(g, step))
  {
  }

  lemma StepKeepsInTime(s: State, step: Step)
    requires InTime(s.gate)
    ensures InTime(Do(s, step).gate)
  {
    hide InTime, Started, BeginClose, CancelBy, WaitBy, CloseBy, AfterReader, Take, Arrive;
    match step
    case CloseBegins(k) => GateStepsKeepInTime(s.gate, k, step);
    case CloseCancels(k) => GateStepsKeepInTime(s.gate, k, step);
    case CloseWaits(k) => GateStepsKeepInTime(s.gate, k, step);
    case CloseOnce(k) => GateStepsKeepInTime(s.gate, k, step);
    case _ => GateStepsKeepInTime(s.gate, RUNNER, step);
  }

  lemma {:induction false} StartedInTimeStays(s: State, more: seq<Step>)
    requires InTime(s.gate)
    ensures InTime(Run(s, more).gate)
  {
    hide Do, InTime;
    if more != [] {
      StartedInTimeStays(s, more[..|more| - 1]);
      StepKeepsInTime(Run(s, more[..|more| - 1]), more[|more| - 1]);
    }
  }

  /** After a Start that came too late, letting Close finish and reading one frame is a send on a closed channel. */
  lemma LateStartCanPanic(s: State, frame: Frame) returns (more: seq<Step>)
    requires s.gate.reader.Running? && TooLate(s.gate) && (s.gate.onceDone <==> s.gate.channelClosed)
    ensures Run(s, more).gate.panicked
  {
    if s.gate.channelClosed {
      more := [ReadBinary(frame)];
      assert more[..0] == [] && Run(s, []) == s;
    } else {
      var k :| k in s.gate.closers && s.gate.closers[k].Closing?;
      more := [CloseOnce(k), ReadBinary(frame)];
      assert more[..1][..0] == [] && Run(s, []) == s;
      assert Run(s, more[..1]) == Do(s, CloseOnce(k));
    }
  }

  /** Exactly when Start is safe: from any state reached without a late Start, some continuation after Start
      panics if and only if Start finds the channel closed or a Close past its wait. */
  lemma StartPanicsIff(capacity: nat, s: State)
    requires Reachable(capacity, s) && !s.gate.lateStart && !s.gate.started
    ensures TooLate(s.gate) <==> exists more :: Run(Do(s, Start), more).gate.panicked
  {
    var t := Do(s, Start);
    ReachableKeepsInv(capacity, s);
    StepKeepsInv(s, Start);
    hide Run, Reachable, FlowInv, RunnerInv, TooLate, BeginClose, CancelBy, WaitBy, CloseBy, AfterReader, Take, Arrive;
    if TooLate(s.gate) {
      TooLateStays(s.gate);
      var more := LateStartCanPanic(t, []);
    } else {
      forall more ensures !Run(t, more).gate.panicked {
        StartedInTimeStays(t, more);
        RunKeepsInv(t, more);
      }
    }
  }

  lemma TooLateStays(g: Gate)
    ensures TooLate(Started(g)) <==> TooLate(g)
  {
  }

  lemma RunThen(s: State, steps: seq<Step>, step: Step)
    ensures Run(s, steps + [step]) == Do(Run(s, steps), step)
  {
    assert (steps + [step])[..|steps|] == steps;
  }

  lemma StepIsReachable(capacity: nat, s: State, step: Step)
    requires Reachable(capacity, s)
    ensures Reachable(capacity, Do(s, step))
  {
    hide Do;
    var steps :| s == Run(Init(capacity), steps);
    RunThen(Init(capacity), steps, step);
  }

  lemma InitIsReachable(capacity: nat)
    ensures Reachable(capacity, Init(capacity))
  {
    assert Run(Init(capacity), []) == Init(capacity);
  }

  /** Such a state is reached: a Close before any Start finds nothing to wait for. */
  lemma StartCanComeTooLate(capacity: nat) returns (s: State)
    ensures Reachable(capacity, s) && !s.gate.lateStart && !s.gate.started && TooLate(s.gate)
  {
    hide Reachable, Run;
    InitIsReachable(capacity);
    s := Init(capacity);
    StepIsReachable(capacity, s, CloseBegins(1));
    s := Do(s, CloseBegins(1));
    StepIsReachable(capacity, s, CloseCancels(1));
    s := Do(s, CloseCancels(1));
    StepIsReachable(capacity, s, CloseWaits(1));
    s := Do(s, CloseWaits(1));
    assert 1 in s.gate.closers && s.gate.closers[1].Closing?;
  }

  // ---- When Close's wait ends ----

  /** The reading goroutine runs and nobody has told it to stop. */
  predicate Unstopped(g: Gate) {
    g.reader.Running? && !g.cancelled && !g.parentDone
  }

  /** The steps that tell it to: the end of Start's context, and the cancel of a Close that has a cancel function. */
  predicate Stops(g: Gate, step: Step) {
    step.CancelParent? || (step.CloseCancels? && step.k in g.closers && g.closers[step.k] == HasCancel(true))
  }

  function NextOfReader(reader: Reader): Step
    requires !NobodyToWaitFor(reader)
  {
    match reader
    case Running => RunReturns
    case Returned => ReaderCloses
    case PastClose => ReaderDone
  }

  function ReaderStepsLeft(reader: Reader): nat {
    match reader
    case Running => 3
    case Returned => 2
    case PastClose => 1
    case NotStarted => 0
    case Done => 0
  }

  lemma StopsEndsIt(s: State, step: Step)
    requires Unstopped(s.gate) && !s.gate.lateStart && GateInv(s.gate)
    ensures Unstopped(Do(s, step).gate) <==> !Stops(s.gate, step)
  {
    hide Take, Arrive, TooLate, ClosedOnce;
  }

  lemma StoppedStaysStopped(s: State, step: Step)
    requires !Unstopped(s.gate) && s.gate.started && (s.gate.started <==> !s.gate.reader.NotStarted?)
    ensures !Unstopped(Do(s, step).gate) && Do(s, step).gate.started
    ensures ReaderStepsLeft(Do(s, step).gate.reader) <= ReaderStepsLeft(s.gate.reader)
  {
    hide Take, Arrive, TooLate;
  }

  /** When the wait of Close call `k` ends, in every reachable state.  While the reader is unstopped it cannot, and
      exactly the end of Start's context or another Close with a cancel function changes that; otherwise it can end
      at once or the reader's next statement can run and brings the end nearer, and nothing anyone does takes it
      further away.  A Close that had a cancel function never meets an unstopped reader. */
  lemma CloseWaitEndsIff(capacity: nat, s: State, k: nat, step: Step)
    requires Reachable(capacity, s) && !s.gate.lateStart && k in s.gate.closers && s.gate.closers[k].Waiting?
    ensures s.gate.closers[k].started ==> !Unstopped(s.gate)
    ensures Unstopped(s.gate) ==>
              && Do(s, CloseWaits(k)) == s && Do(s, NextOfReader(s.gate.reader)) == s
              && (Unstopped(Do(s, step).gate) <==> !Stops(s.gate, step))
    ensures !Unstopped(s.gate) ==>
              if NobodyToWaitFor(s.gate.reader) then
                k in Do(s, CloseWaits(k)).gate.closers && Do(s, CloseWaits(k)).gate.closers[k] == Closing
              else
                ReaderStepsLeft(Do(s, NextOfReader(s.gate.reader)).gate.reader) < ReaderStepsLeft(s.gate.reader)
    ensures !Unstopped(s.gate) && s.gate.started ==>
              && !Unstopped(Do(s, step).gate)
              && ReaderStepsLeft(Do(s, step).gate.reader) <= ReaderStepsLeft(s.gate.reader)
  {
    ReachableKeepsInv(capacity, s);
    hide Run, Reachable, FlowInv, RunnerInv, Take, Arrive, TooLate;
    if Unstopped(s.gate) {
      StopsEndsIt(s, step);
    } else if s.gate.started {
      StoppedStaysStopped(s, step);
    }
  }

  /** A Close that comes before Start can meet one: it then waits for as long as the reader runs. */
  lemma CloseBeforeStartCanWait(capacity: nat) returns (s: State)
    ensures Reachable(capacity, s) && !s.gate.lateStart && Unstopped(s.gate)
    ensures 1 in s.gate.closers && s.gate.closers[1].Waiting?
  {
    hide Reachable, Run;
    InitIsReachable(capacity);
    s := Init(capacity);
    StepIsReachable(capacity, s, CloseBegins(1));
    s := Do(s, CloseBegins(1));
    StepIsReachable(capacity, s, Start);
    s := Do(s, Start);
    StepIsReachable(capacity, s, CloseCancels(1));
    s := Do(s, CloseCancels(1));
  }

  /** A frame overflows only when the buffer is full; otherwise it is the last to be handled, and nothing else moves. */
  lemma OverflowsOnlyWhenFull(f: Flow, frame: Frame)
    requires FlowInv(f)
    ensures var t := Arrive(f, frame);
            && (|f.buffer| < f.capacity ==> t.buffer == f.buffer + [frame] && t.overflowCount == f.overflowCount)
            && (|f.buffer| == f.capacity ==> t.buffer == f.buffer && t.overflowCount == f.overflowCount + 1)
            && t.handled == f.handled && |t.arrivals| == |f.arrivals| + 1
            && t.arrivals[|f.arrivals|].frame == frame
  {
  }
}
