/** internal/busybar/push.go as a transition system: any number of goroutines in PushFrame, serialised by
    mailboxMu, against the worker that drains the single-slot mailbox.  A step is one select, receive, send
    or ledger update; a step that is not enabled leaves the state as it is. */
module PushMailbox {
  import opened Basics
  import opened Telemetry

  datatype Frame = Frame(screen: nat, data: seq<byte>)

  /** The goroutine that holds mailboxMu, by the statement it is about to execute; `evicted` is history: whether it
      emptied the slot itself. */
  datatype Holder =
    | Nobody
    | Checking(p: nat, frame: Frame)
    | Offering(p: nat, frame: Frame)
    | Evicting(p: nat, frame: Frame)
    | Reporting(p: nat, frame: Frame)
    | Sending(p: nat, frame: Frame, evicted: bool)

  datatype Worker = Absent | Selecting | Starting(frame: Frame) | Transmitting(frame: Frame) | Exited

  /** What became of an accepted frame. */
  datatype Fate = InSlot | Taken | Evicted

  /** `accepted`, `fates` and `transmitted` are history: the frames PushFrame put into the mailbox, what
      became of each, and the frames the worker received. */
  datatype State = State(store: StoreState, holder: Holder, slot: Option<Frame>, closed: bool, started: bool,
                         cancelled: bool, worker: Worker,
                         accepted: seq<Frame>, fates: seq<Fate>, transmitted: seq<Frame>)

  datatype Step =
    | Lock(p: nat, frame: Frame)
    | Check(p: nat)
    | Offer(p: nat)
    | Evict(p: nat)
    | Report(p: nat)
    | Send(p: nat)
    | Start
    | Close
    | CloseCancel
    | CancelParent
    | WorkerTake
    | WorkerAttempt
    | WorkerResult(success: bool, now: int, latency: int, err: Option<Error>)
    | WorkerQuit

  function Init(): State {
    State(Empty(CAPACITY), Nobody, None, false, false, false, Absent, [], [], [])
  }

  function Accept(s: State, frame: Frame): State {
    s.(slot := Some(frame), accepted := s.accepted + [frame], fates := s.fates + [InSlot], holder := Nobody)
  }

  /** The slot only ever holds the last accepted frame. */
  function Fated(fates: seq<Fate>, fate: Fate): seq<Fate> {
    if fates == [] then [] else fates[|fates| - 1 := fate]
  }

  function DoLock(s: State, p: nat, frame: Frame): State {
    if s.holder.Nobody? && frame.data != [] then s.(holder := Checking(p, frame)) else s
  }

  function DoCheck(s: State, p: nat): State {
    if s.holder.Checking? && s.holder.p == p then
      s.(holder := if s.closed then Nobody else Offering(p, s.holder.frame))
    else s
  }

  function DoOffer(s: State, p: nat): State {
    if s.holder.Offering? && s.holder.p == p then
      if s.slot.None? then Accept(s, s.holder.frame) else s.(holder := Evicting(p, s.holder.frame))
    else s
  }

  function DoEvict(s: State, p: nat): State {
    if s.holder.Evicting? && s.holder.p == p then
      if s.slot.Some? then
        s.(slot := None, fates := Fated(s.fates, Evicted), holder := Reporting(p, s.holder.frame))
      else s.(holder := Sending(p, s.holder.frame, false))
    else s
  }

  function DoReport(s: State, p: nat): State
    requires 1 <= s.store.capacity
  {
    if s.holder.Reporting? && s.holder.p == p then
      s.(store := Apply(s.store, RecordPushDrop), holder := Sending(p, s.holder.frame, true))
    else s
  }

  /** The unconditional send: it waits while the slot is full. */
  function DoSend(s: State, p: nat): State {
    if s.holder.Sending? && s.holder.p == p && s.slot.None? then Accept(s, s.holder.frame) else s
  }

  function DoStart(s: State): State {
    if !s.started then s.(started := true, worker := Selecting) else s
  }

  function DoWorkerTake(s: State): State {
    if s.worker.Selecting? && s.slot.Some? then
      s.(slot := None, fates := Fated(s.fates, Taken), transmitted := s.transmitted + [s.slot.value],
         worker := Starting(s.slot.value))
    else s
  }

  function DoWorkerAttempt(s: State): State
    requires 1 <= s.store.capacity
  {
    if s.worker.Starting? then
      s.(store := Apply(s.store, RecordPushAttempt), worker := Transmitting(s.worker.frame))
    else s
  }

  function DoWorkerResult(s: State, success: bool, now: int, latency: int, err: Option<Error>): State
    requires 1 <= s.store.capacity
  {
    if s.worker.Transmitting? then
      s.(store := Apply(s.store, RecordPushResult(success, now, latency, err)), worker := Selecting)
    else s
  }

  function Do(s: State, step: Step): (t: State)
    requires 1 <= s.store.capacity
    ensures t.store.capacity == s.store.capacity
  {
    match step
    case Lock(p, frame) => DoLock(s, p, frame)
    case Check(p) => DoCheck(s, p)
    case Offer(p) => DoOffer(s, p)
    case Evict(p) => DoEvict(s, p)
    case Report(p) => DoReport(s, p)
    case Send(p) => DoSend(s, p)
    case Start => DoStart(s)
    case Close => s.(closed := true)
    case CloseCancel => if s.closed && s.started then s.(cancelled := true) else s
    case CancelParent => s.(cancelled := true)
    case WorkerTake => DoWorkerTake(s)
    case WorkerAttempt => DoWorkerAttempt(s)
    case WorkerResult(success, now, latency, err) => DoWorkerResult(s, success, now, latency, err)
    case WorkerQuit => if s.worker.Selecting? && s.cancelled then s.(worker := Exited) else s
  }

  // ---- The invariant ----

  function Count(fates: seq<Fate>, fate: Fate): nat {
    if fates == [] then 0
    else Count(fates[..|fates| - 1], fate) + (if fates[|fates| - 1] == fate then 1 else 0)
  }

  /** The accepted frames the worker received, in the order they were accepted. */
  function TakenFrom(accepted: seq<Frame>, fates: seq<Fate>): seq<Frame>
    requires |accepted| == |fates|
  {
    if fates == [] then []
    else
      var n := |fates| - 1;
      TakenFrom(accepted[..n], fates[..n]) + (if fates[n].Taken? then [accepted[n]] else [])
  }

  /** Only the last accepted frame can be in the slot, and it is exactly when the slot is full. */
  ghost predicate SlotInv(slot: Option<Frame>, accepted: seq<Frame>, fates: seq<Fate>) {
    && |fates| == |accepted|
    && (forall i :: 0 <= i < |fates| - 1 ==> fates[i] != InSlot)
    && (slot.Some? <==> fates != [] && fates[|fates| - 1] == InSlot)
    && (slot.Some? ==> slot.value == accepted[|accepted| - 1])
  }

  /** The holder has evicted a frame and not yet sent its successor. */
  predicate Replacing(holder: Holder) {
    holder.Reporting? || (holder.Sending? && holder.evicted)
  }

  ghost predicate HolderInv(holder: Holder, slot: Option<Frame>, fates: seq<Fate>) {
    && (holder.Reporting? || holder.Sending? ==> slot.None?)
    && (fates != [] && fates[|fates| - 1] == Evicted <==> Replacing(holder))
  }

  function Unreported(holder: Holder): nat { if holder.Reporting? then 1 else 0 }
  function Unsettled(worker: Worker): nat { if worker.Starting? || worker.Transmitting? then 1 else 0 }
  function Attempting(worker: Worker): nat { if worker.Transmitting? then 1 else 0 }

  ghost predicate LedgerInv(push: Push, holder: Holder, worker: Worker, fates: seq<Fate>) {
    && push.dropped + Unreported(holder) == Count(fates, Evicted)
    && push.successes + push.failures + Unsettled(worker) == Count(fates, Taken)
    && push.attempts == push.successes + push.failures + Attempting(worker)
  }

  ghost predicate Inv(s: State) {
    && 1 <= s.store.capacity
    && (s.worker.Absent? <==> !s.started)
    && SlotInv(s.slot, s.accepted, s.fates)
    && HolderInv(s.holder, s.slot, s.fates)
    && LedgerInv(s.store.push, s.holder, s.worker, s.fates)
    && s.transmitted == TakenFrom(s.accepted, s.fates)
  }

  // ---- Every step keeps it ----

  lemma AcceptFacts(accepted: seq<Frame>, fates: seq<Fate>, frame: Frame)
    requires |accepted| == |fates|
    ensures TakenFrom(accepted + [frame], fates + [InSlot]) == TakenFrom(accepted, fates)
    ensures forall q :: q != InSlot ==> Count(fates + [InSlot], q) == Count(fates, q)
  {
    assert (accepted + [frame])[..|accepted|] == accepted && (fates + [InSlot])[..|fates|] == fates;
  }

  lemma FatedFacts(accepted: seq<Frame>, fates: seq<Fate>, fate: Fate)
    requires |accepted| == |fates| > 0 && fates[|fates| - 1] == InSlot && fate != InSlot
    ensures TakenFrom(accepted, Fated(fates, fate))
         == TakenFrom(accepted, fates) + (if fate.Taken? then [accepted[|accepted| - 1]] else [])
    ensures forall q :: q != InSlot ==> Count(Fated(fates, fate), q) == Count(fates, q) + (if q == fate then 1 else 0)
  {
    assert Fated(fates, fate)[..|fates| - 1] == fates[..|fates| - 1];
  }

  lemma AcceptKeepsInv(s: State, frame: Frame)
    requires Inv(s) && s.slot.None? && !s.holder.Reporting?
    ensures Inv(Accept(s, frame))
  {
    AcceptFacts(s.accepted, s.fates, frame);
    hide Count, TakenFrom;
  }

  lemma EvictKeepsInv(s: State, p: nat)
    requires Inv(s)
    ensures Inv(DoEvict(s, p))
  {
    hide Count, TakenFrom;
    if s.holder.Evicting? && s.slot.Some? {
      FatedFacts(s.accepted, s.fates, Evicted);
    }
  }

  lemma WorkerTakeKeepsInv(s: State)
    requires Inv(s)
    ensures Inv(DoWorkerTake(s))
  {
    hide Count, TakenFrom;
    if s.worker.Selecting? && s.slot.Some? {
      FatedFacts(s.accepted, s.fates, Taken);
    }
  }

  lemma LedgerStepsKeepInv(s: State, p: nat, success: bool, now: int, latency: int, err: Option<Error>)
    requires Inv(s)
    ensures Inv(DoReport(s, p)) && Inv(DoWorkerAttempt(s)) && Inv(DoWorkerResult(s, success, now, latency, err))
  {
    hide Count, TakenFrom, SlotInv;
  }

  lemma StepKeepsInv(s: State, step: Step)
    requires Inv(s)
    ensures Inv(Do(s, step))
  {
    hide Count, TakenFrom, SlotInv, Accept, DoEvict, DoReport, DoWorkerTake, DoWorkerAttempt, DoWorkerResult;
    match step
    case Offer(p) =>
      if s.holder.Offering? && s.slot.None? {
        AcceptKeepsInv(s, s.holder.frame);
      }
    case Send(p) =>
      if s.holder.Sending? {
        AcceptKeepsInv(s, s.holder.frame);
      }
    case Evict(p) => EvictKeepsInv(s, p);
    case WorkerTake => WorkerTakeKeepsInv(s);
    case Report(p) => LedgerStepsKeepInv(s, p, true, 0, 0, None);
    case WorkerAttempt => LedgerStepsKeepInv(s, 0, true, 0, 0, None);
    case WorkerResult(success, now, latency, err) => LedgerStepsKeepInv(s, 0, success, now, latency, err);
    case _ =>
  }

  function Run(s: State, steps: seq<Step>): (t: State)
    requires 1 <= s.store.capacity
    ensures t.store.capacity == s.store.capacity
  {
    if steps == [] then s else Do(Run(s, steps[..|steps| - 1]), steps[|steps| - 1])
  }

  lemma {:induction false} RunKeepsInv(steps: seq<Step>)
    ensures Inv(Run(Init(), steps))
  {
    hide Do;
    if steps != [] {
      RunKeepsInv(steps[..|steps| - 1]);
      StepKeepsInv(Run(Init(), steps[..|steps| - 1]), steps[|steps| - 1]);
    }
  }

  ghost predicate Reachable(s: State) {
    exists steps :: s == Run(Init(), steps)
  }

  lemma ReachableKeepsInv(s: State)
    requires Reachable(s)
    ensures Inv(s)
  {
    var steps :| s == Run(Init(), steps);
    RunKeepsInv(steps);
  }

  // ---- What every run does ----

  /** The step that executes the mutex holder's next statement. */
  function NextOf(holder: Holder): Step
    requires !holder.Nobody?
  {
    match holder
    case Checking(p, _) => Check(p)
    case Offering(p, _) => Offer(p)
    case Evicting(p, _) => Evict(p)
    case Reporting(p, _) => Report(p)
    case Sending(p, _, _) => Send(p)
  }

  function StatementsLeft(holder: Holder): nat {
    match holder
    case Nobody => 0
    case Checking(_, _) => 5
    case Offering(_, _) => 4
    case Evicting(_, _) => 3
    case Reporting(_, _) => 2
    case Sending(_, _, _) => 1
  }

  /** PushFrame never waits while it holds the mutex: in every reachable state the slot is empty when the
      unconditional send is reached, the holder's next statement can run and brings it closer to the end,
      and no step of anyone else touches the holder. */
  lemma PushFrameNeverBlocks(s: State, other: Step)
    requires Reachable(s)
    ensures 1 <= s.store.capacity
    ensures s.holder.Sending? ==> s.slot.None?
    ensures !s.holder.Nobody? ==>
              && StatementsLeft(Do(s, NextOf(s.holder)).holder) < StatementsLeft(s.holder)
              && (Do(s, other).holder == s.holder || other == NextOf(s.holder))
  {
    ReachableKeepsInv(s);
    hide Run, Reachable, Apply, SlotInv, LedgerInv, TakenFrom, Fated;
  }

  lemma {:induction false} FatesAddUp(fates: seq<Fate>)
    ensures |fates| == Count(fates, InSlot) + Count(fates, Taken) + Count(fates, Evicted)
  {
    if fates != [] {
      FatesAddUp(fates[..|fates| - 1]);
    }
  }

  lemma {:induction false} AtMostOneInSlot(fates: seq<Fate>)
    requires forall i :: 0 <= i < |fates| - 1 ==> fates[i] != InSlot
    ensures Count(fates, InSlot) == if fates != [] && fates[|fates| - 1] == InSlot then 1 else 0
  {
    if fates != [] {
      AtMostOneInSlot(fates[..|fates| - 1]);
    }
  }

  /** Accounting, in every reachable state: every accepted frame is dropped, delivered, failed, being
      transmitted, in the slot, or just evicted and about to be counted. */
  lemma FramesAreAccountedFor(s: State)
    requires Reachable(s)
    ensures |s.accepted| == s.store.push.dropped + s.store.push.successes + s.store.push.failures
                            + Unsettled(s.worker) + (if s.slot.Some? then 1 else 0) + Unreported(s.holder)
    ensures s.store.push.attempts == s.store.push.successes + s.store.push.failures + Attempting(s.worker)
  {
    hide Run, Reachable, Count, TakenFrom;
    ReachableKeepsInv(s);
    FatesAddUp(s.fates);
    AtMostOneInSlot(s.fates);
  }

  /** Latest wins, in every reachable state: the worker received exactly the accepted frames whose fate that was, in
      order; no earlier frame is in the slot; and the most recently accepted frame is in the slot or received, never
      evicted, if and only if no PushFrame is between evicting it and sending its successor.  So whenever no
      PushFrame is under way the last accepted frame is there or taken. */
  lemma LatestFrameWins(s: State)
    requires Reachable(s)
    ensures |s.fates| == |s.accepted|
    ensures s.transmitted == TakenFrom(s.accepted, s.fates)
    ensures s.accepted != [] ==>
              var last := |s.accepted| - 1;
              && (s.fates[last] == InSlot <==> s.slot == Some(s.accepted[last]))
              && (s.fates[last] == InSlot <==> s.slot.Some?)
              && (s.fates[last] == Evicted <==> Replacing(s.holder))
              && (s.holder.Nobody? ==> s.fates[last] == InSlot || s.fates[last] == Taken)
    ensures s.accepted == [] ==> s.slot.None? && !Replacing(s.holder)
    ensures forall i :: 0 <= i < |s.accepted| - 1 ==> s.fates[i] != InSlot
  {
    hide Run, Reachable, Count, TakenFrom;
    ReachableKeepsInv(s);
  }

  lemma {:induction false} TakenFromIsSubsequence(accepted: seq<Frame>, fates: seq<Fate>, k: nat) returns (i: nat)
    requires |accepted| == |fates| && k < |TakenFrom(accepted, fates)|
    ensures i < |accepted| && fates[i] == Taken && accepted[i] == TakenFrom(accepted, fates)[k]
    ensures Count(fates[..i], Taken) == k
  {
    var n := |fates| - 1;
    if k < |TakenFrom(accepted[..n], fates[..n])| {
      i := TakenFromIsSubsequence(accepted[..n], fates[..n], k);
      assert fates[..n][..i] == fates[..i];
    } else {
      i := n;
      TakenCount(accepted[..n], fates[..n]);
    }
  }

  lemma {:induction false} TakenCount(accepted: seq<Frame>, fates: seq<Fate>)
    requires |accepted| == |fates|
    ensures |TakenFrom(accepted, fates)| == Count(fates, Taken)
  {
    if fates != [] {
      TakenCount(accepted[..|fates| - 1], fates[..|fates| - 1]);
    }
  }

  /** The exception is real: this run evicts the most recently accepted frame before its successor is sent. */
  lemma LatestFrameCanBeEvicted(a: Frame, b: Frame)
    requires a.data != [] && b.data != []
    ensures var s := Run(Init(), [Lock(0, a), Check(0), Offer(0), Lock(1, b), Check(1), Offer(1), Evict(1)]);
            s.accepted == [a] && s.fates == [Evicted] && s.slot.None? && s.holder == Reporting(1, b)
  {
    var steps := [Lock(0, a), Check(0), Offer(0), Lock(1, b), Check(1), Offer(1), Evict(1)];
    assert steps[..6][..5] == steps[..5] && steps[..5][..4] == steps[..4] && steps[..4][..3] == steps[..3];
    assert steps[..3][..2] == steps[..2] && steps[..2][..1] == steps[..1] && steps[..1][..0] == [];
    assert Run(Init(), steps[..1]) == Init().(holder := Checking(0, a));
    assert Run(Init(), steps[..2]) == Init().(holder := Offering(0, a));
    assert Run(Init(), steps[..3]) == Accept(Init(), a);
    assert Accept(Init(), a).accepted == [a] && Accept(Init(), a).fates == [InSlot];
    assert Run(Init(), steps[..4]) == Accept(Init(), a).(holder := Checking(1, b));
    assert Run(Init(), steps[..5]) == Accept(Init(), a).(holder := Offering(1, b));
    assert Run(Init(), steps[..6]) == Accept(Init(), a).(holder := Evicting(1, b));
  }
}
