/** internal/telemetry/store.go: the ledger every component writes to, and its ring of
    event traces.  `Apply` says what each call does to the store; class `Store` is the
    source's in-place form, tied to `Apply` call by call. */
module Telemetry {
  import opened Basics

  datatype Outcome = Pending | Success | Failure

  /** What an error stored in the ledger says. */
  datatype Error =
    | MarshalFailed
    | RequestFailed
    | NetworkFailed
    | PermanentStatus(code: int)
    | TransientStatus(code: int)
    | OtherError(text: string)

  datatype EventTrace = EventTrace(id: int, timestamp: int, eventType: string, summary: string,
                                   outcome: Outcome, error: Option<Error>, latencyMs: int)
  {
    /** A nil error leaves the recorded one in place. */
    function WithOutcome(o: Outcome, latency: int, err: Option<Error>): EventTrace {
      this.(outcome := o,
            latencyMs := TruncDiv(latency, 1_000_000),
            error := if err.Some? then err else error)
    }
  }

  datatype Counters = Counters(buttons: nat, switches: nat, encoders: nat, other: nat)
  {
    function Sum(): nat { buttons + switches + encoders + other }

    function Counting(eventType: string): Counters {
      var t := ToLower(eventType);
      if t == "button" || t == "buttons" then this.(buttons := buttons + 1)
      else if t == "switch" || t == "switches" then this.(switches := switches + 1)
      else if t == "encoder" || t == "encoders" then this.(encoders := encoders + 1)
      else this.(other := other + 1)
    }
  }

  datatype Forwarding = Forwarding(dispatched: nat, acked: nat, failed: nat)

  datatype Push = Push(attempts: nat, successes: nat, failures: nat, dropped: nat,
                       lastPushAt: int, lastLatencyMs: int, lastError: Option<Error>)

  datatype CalendarSync = CalendarSync(polls: nat, succeeded: nat, failed: nat,
                                       lastPollAt: int, lastError: Option<Error>, activeSummary: string)

  datatype StoreState = StoreState(counters: Counters, forwarding: Forwarding, push: Push, calendarSync: CalendarSync,
                         ring: seq<EventTrace>, nextID: nat, totalEvents: nat, capacity: nat, dropCount: nat)
  {
    ghost predicate RingValid() {
      && 1 <= capacity
      && |ring| == Min(nextID, capacity)
      && forall i :: 0 <= i < |ring| ==> ring[i].id == nextID - |ring| + 1 + i
    }
  }

  const CAPACITY: nat := 10

  function Empty(capacity: nat): StoreState {
    StoreState(Counters(0, 0, 0, 0), Forwarding(0, 0, 0), Push(0, 0, 0, 0, 0, 0, None),
          CalendarSync(0, 0, 0, 0, None, ""), [], 0, 0, capacity, 0)
  }

  datatype Call =
    | RecordEvent(eventType: string, summary: string, now: int)
    | RecordForwardOutcome(id: int, outcome: Outcome, latency: int, err: Option<Error>)
    | RecordDrop
    | RecordPushAttempt
    | RecordPushResult(success: bool, now: int, latency: int, err: Option<Error>)
    | RecordPushDrop
    | RecordCalendarPoll(success: bool, activeSummary: string, now: int, err: Option<Error>)

  function Append(ring: seq<EventTrace>, capacity: nat, t: EventTrace): seq<EventTrace>
    requires 1 <= capacity
  {
    if |ring| >= capacity then ring[1..] + [t] else ring + [t]
  }

  /** Every trace with the given ID takes the outcome; IDs in a valid ring are distinct. */
  function Settle(ring: seq<EventTrace>, id: int, o: Outcome, latency: int, err: Option<Error>): seq<EventTrace> {
    seq(|ring|, i requires 0 <= i < |ring| =>
      if ring[i].id == id then ring[i].WithOutcome(o, latency, err) else ring[i])
  }

  function Apply(s: StoreState, call: Call): StoreState
    requires 1 <= s.capacity
  {
    match call
    case RecordEvent(eventType, summary, now) =>
      s.(nextID := s.nextID + 1,
         totalEvents := s.totalEvents + 1,
         counters := s.counters.Counting(eventType),
         ring := Append(s.ring, s.capacity,
                        EventTrace(s.nextID + 1, now, eventType, summary, Pending, None, 0)))
    case RecordForwardOutcome(id, o, latency, err) =>
      s.(forwarding := Forwarding(s.forwarding.dispatched + 1,
                                  s.forwarding.acked + (if o == Success then 1 else 0),
                                  s.forwarding.failed + (if o == Failure then 1 else 0)),
         ring := Settle(s.ring, id, o, latency, err))
    case RecordDrop =>
      s.(dropCount := s.dropCount + 1)
    case RecordPushAttempt =>
      s.(push := s.push.(attempts := s.push.attempts + 1))
    case RecordPushResult(success, now, latency, err) =>
      var p := s.push.(lastPushAt := now, lastLatencyMs := TruncDiv(latency, 1_000_000));
      s.(push := if success then p.(successes := p.successes + 1, lastError := None)
                 else p.(failures := p.failures + 1, lastError := if err.Some? then err else p.lastError))
    case RecordPushDrop =>
      s.(push := s.push.(dropped := s.push.dropped + 1))
    case RecordCalendarPoll(success, activeSummary, now, err) =>
      var c := s.calendarSync.(polls := s.calendarSync.polls + 1, lastPollAt := now, activeSummary := activeSummary);
      s.(calendarSync := if success then c.(succeeded := c.succeeded + 1, lastError := None)
                         else c.(failed := c.failed + 1, lastError := if err.Some? then err else c.lastError))
  }

  function Run(s: StoreState, calls: seq<Call>): StoreState
    requires 1 <= s.capacity
    ensures Run(s, calls).capacity == s.capacity
  {
    if calls == [] then s else Apply(Run(s, calls[..|calls| - 1]), calls[|calls| - 1])
  }

  // ---- The unbounded log the ring is a window on ----

  /** The log keeps every trace ever recorded, entry i holding ID i + 1. */
  function Log(calls: seq<Call>): seq<EventTrace> {
    if calls == [] then []
    else
      var log := Log(calls[..|calls| - 1]);
      match calls[|calls| - 1]
      case RecordEvent(eventType, summary, now) =>
        log + [EventTrace(|log| + 1, now, eventType, summary, Pending, None, 0)]
      case RecordForwardOutcome(id, o, latency, err) =>
        SettleLog(log, id, o, latency, err)
      case _ => log
  }

  function Suffix<T>(s: seq<T>, n: nat): seq<T> {
    if |s| <= n then s else s[|s| - n..]
  }

  ghost predicate Numbered(log: seq<EventTrace>) {
    forall i :: 0 <= i < |log| ==> log[i].id == i + 1
  }

  lemma AppendMovesTheWindow(log: seq<EventTrace>, capacity: nat, t: EventTrace)
    requires 1 <= capacity
    ensures Append(Suffix(log, capacity), capacity, t) == Suffix(log + [t], capacity)
  {
  }

  function SettleLog(log: seq<EventTrace>, id: int, o: Outcome, latency: int, err: Option<Error>): seq<EventTrace> {
    if 1 <= id <= |log| then log[id - 1 := log[id - 1].WithOutcome(o, latency, err)] else log
  }

  lemma SettleInTheWindow(log: seq<EventTrace>, capacity: nat, id: int, o: Outcome, latency: int, err: Option<Error>)
    requires Numbered(log)
    ensures Settle(Suffix(log, capacity), id, o, latency, err) == Suffix(SettleLog(log, id, o, latency, err), capacity)
    ensures Numbered(SettleLog(log, id, o, latency, err))
  {
    var ring := Suffix(log, capacity);
    var log' := SettleLog(log, id, o, latency, err);
    var from := |log| - |ring|;
    forall i | 0 <= i < |ring|
      ensures Suffix(log', capacity)[i] == if ring[i].id == id then ring[i].WithOutcome(o, latency, err) else ring[i]
    {
      assert ring[i] == log[from + i] && Suffix(log', capacity)[i] == log'[from + i];
    }
  }

  /** The ring is the last min(n, capacity) entries of the log, for every sequence of calls. */
  lemma {:induction false} RingRefinesLog(capacity: nat, calls: seq<Call>)
    requires 1 <= capacity
    ensures Run(Empty(capacity), calls).ring == Suffix(Log(calls), capacity)
    ensures Run(Empty(capacity), calls).nextID == |Log(calls)|
    ensures Numbered(Log(calls))
  {
    if calls != [] {
      var before := calls[..|calls| - 1];
      RingRefinesLog(capacity, before);
      match calls[|calls| - 1] {
        case RecordEvent(eventType, summary, now) =>
          AppendMovesTheWindow(Log(before), capacity,
                               EventTrace(|Log(before)| + 1, now, eventType, summary, Pending, None, 0));
        case RecordForwardOutcome(id, o, latency, err) =>
          SettleInTheWindow(Log(before), capacity, id, o, latency, err);
        case _ =>
      }
    }
  }

  /** IDs in the ring are contiguous and end at nextID. */
  lemma RingStaysValid(capacity: nat, calls: seq<Call>)
    requires 1 <= capacity
    ensures Run(Empty(capacity), calls).RingValid()
  {
    RingRefinesLog(capacity, calls);
  }

  function EventsRecorded(calls: seq<Call>): nat {
    if calls == [] then 0
    else EventsRecorded(calls[..|calls| - 1]) + (if calls[|calls| - 1].RecordEvent? then 1 else 0)
  }

  /** The outcome of the last effective forward call for an ID: Pending until one is made, and
      a call made before the ID was issued has no effect. */
  function LatestOutcome(calls: seq<Call>, id: int): Outcome {
    if calls == [] then Pending
    else
      var before := calls[..|calls| - 1];
      var last := calls[|calls| - 1];
      if last.RecordForwardOutcome? && last.id == id && id <= EventsRecorded(before) then last.outcome
      else LatestOutcome(before, id)
  }

  lemma {:induction false} NoOutcomeBeforeIssue(calls: seq<Call>, id: int)
    requires id > EventsRecorded(calls)
    ensures LatestOutcome(calls, id) == Pending
  {
    if calls != [] {
      NoOutcomeBeforeIssue(calls[..|calls| - 1], id);
    }
  }

  /** Every log entry holds the latest outcome reported for its ID. */
  lemma {:induction false} LogHoldsLatestOutcome(calls: seq<Call>)
    ensures |Log(calls)| == EventsRecorded(calls)
    ensures forall i :: 0 <= i < |Log(calls)| ==> Log(calls)[i].outcome == LatestOutcome(calls, i + 1)
  {
    if calls != [] {
      var before := calls[..|calls| - 1];
      LogHoldsLatestOutcome(before);
      NoOutcomeBeforeIssue(before, EventsRecorded(before) + 1);
    }
  }

  /** What a reader of the ring sees, for every sequence of calls: each trace carries the latest
      outcome of its own ID, and the IDs are exactly the last min(n, capacity) issued. */
  lemma RingShowsLatestOutcomes(capacity: nat, calls: seq<Call>, i: nat)
    requires 1 <= capacity
    requires i < |Run(Empty(capacity), calls).ring|
    ensures var s := Run(Empty(capacity), calls);
            && s.ring[i].id == s.nextID - |s.ring| + 1 + i
            && s.ring[i].outcome == LatestOutcome(calls, s.ring[i].id)
  {
    hide Log, LatestOutcome, Apply, EventsRecorded;
    RingRefinesLog(capacity, calls);
    LogHoldsLatestOutcome(calls);
  }

  /** A forward outcome always moves the forwarding counters; it changes a trace only if its ID is
      one of the retained ones, and then only that trace. */
  lemma OutcomeTouchesOnlyItsTrace(s: StoreState, id: int, o: Outcome, latency: int, err: Option<Error>)
    requires s.RingValid()
    ensures var t := Apply(s, RecordForwardOutcome(id, o, latency, err));
            && t.RingValid()
            && t.forwarding.dispatched == s.forwarding.dispatched + 1
            && (!(s.nextID - |s.ring| < id <= s.nextID) ==> t.ring == s.ring)
            && (forall i :: 0 <= i < |s.ring| && s.ring[i].id != id ==> t.ring[i] == s.ring[i])
            && (s.nextID - |s.ring| < id <= s.nextID ==>
                  t.ring[id - s.nextID + |s.ring| - 1].outcome == o)
  {
  }

  function PendingForwards(calls: seq<Call>): nat {
    if calls == [] then 0
    else PendingForwards(calls[..|calls| - 1])
         + (if calls[|calls| - 1].RecordForwardOutcome? && calls[|calls| - 1].outcome.Pending? then 1 else 0)
  }

  /** The counters balance over every sequence of calls. */
  lemma {:induction false} CountersBalance(capacity: nat, calls: seq<Call>)
    requires 1 <= capacity
    ensures var s := Run(Empty(capacity), calls);
            && s.totalEvents == s.nextID == s.counters.Sum() == EventsRecorded(calls)
            && s.forwarding.dispatched == s.forwarding.acked + s.forwarding.failed + PendingForwards(calls)
            && s.calendarSync.polls == s.calendarSync.succeeded + s.calendarSync.failed
  {
    if calls != [] {
      CountersBalance(capacity, calls[..|calls| - 1]);
    }
  }

  lemma RecordKeepsRing(s: StoreState, eventType: string, summary: string, now: int)
    requires s.RingValid()
    ensures 1 <= s.capacity && Apply(s, RecordEvent(eventType, summary, now)).RingValid()
  {
    hide Counters.Counting;
  }

  lemma OutcomeFields(t: EventTrace, settled: EventTrace, o: Outcome, latency: int, err: Option<Error>)
    requires settled == t.(outcome := o, latencyMs := TruncDiv(latency, 1_000_000),
                           error := if err.Some? then err else t.error)
    ensures settled == t.WithOutcome(o, latency, err)
  {
  }

  /** In a valid ring, settling the only trace with the ID is settling by ID, and so is finding none. */
  lemma SettleAtIndex(s: StoreState, i: nat, id: int, o: Outcome, latency: int, err: Option<Error>)
    requires s.RingValid() && i < |s.ring| && s.ring[i].id == id
    ensures s.ring[i := s.ring[i].WithOutcome(o, latency, err)] == Settle(s.ring, id, o, latency, err)
  {
  }

  lemma SettleNowhere(ring: seq<EventTrace>, id: int, o: Outcome, latency: int, err: Option<Error>)
    requires forall k :: 0 <= k < |ring| ==> ring[k].id != id
    ensures Settle(ring, id, o, latency, err) == ring
  {
  }

  // ---- What each call means ----

  /** How many events were recorded under one of the names, whatever its case. */
  function RecordedAs(calls: seq<Call>, names: set<string>): nat {
    if calls == [] then 0
    else
      var last := calls[|calls| - 1];
      RecordedAs(calls[..|calls| - 1], names)
      + (if last.RecordEvent? && ToLower(last.eventType) in names then 1 else 0)
  }

  /** Each kind has its own counter, and the rest is counted as other. */
  lemma {:induction false} CountersCountKinds(capacity: nat, calls: seq<Call>)
    requires 1 <= capacity
    ensures var c := Run(Empty(capacity), calls).counters;
            && c.buttons == RecordedAs(calls, {"button", "buttons"})
            && c.switches == RecordedAs(calls, {"switch", "switches"})
            && c.encoders == RecordedAs(calls, {"encoder", "encoders"})
            && c.other == EventsRecorded(calls) - c.buttons - c.switches - c.encoders
  {
    hide ToLower, Append, Settle;
    assert "button"[0] == 'b' && "buttons"[0] == 'b' && "switch"[0] == 's' && "switches"[0] == 's';
    assert "encoder"[0] == 'e' && "encoders"[0] == 'e';
    if calls != [] {
      CountersCountKinds(capacity, calls[..|calls| - 1]);
    }
  }

  /** A recorded event is the newest trace: pending, with the next ID and what it was recorded with; the oldest one
      makes room only when the ring is full. */
  lemma RecordedEventIsNewest(s: StoreState, eventType: string, summary: string, now: int)
    requires s.RingValid()
    ensures var t := Apply(s, RecordEvent(eventType, summary, now));
            && t.ring != []
            && (var newest := t.ring[|t.ring| - 1];
                && newest.id == s.nextID + 1 && newest.eventType == eventType && newest.summary == summary
                && newest.timestamp == now && newest.outcome == Pending && newest.error == None
                && newest.latencyMs == 0)
            && (|s.ring| < s.capacity ==> s.ring <= t.ring && |t.ring| == |s.ring| + 1)
            && (|s.ring| >= s.capacity ==> s.ring[1..] <= t.ring && |t.ring| == |s.ring|)
            && t.forwarding == s.forwarding && t.push == s.push && t.calendarSync == s.calendarSync
            && t.dropCount == s.dropCount
  {
    hide Counters.Counting;
  }

  /** An outcome counts as acknowledged or failed as it says; the trace takes it with the whole milliseconds of its
      latency, and its error only if there is one. */
  lemma OutcomeIsRecorded(s: StoreState, i: nat, o: Outcome, latency: int, err: Option<Error>)
    requires s.RingValid() && i < |s.ring|
    ensures var t := Apply(s, RecordForwardOutcome(s.ring[i].id, o, latency, err));
            && t.forwarding.acked == s.forwarding.acked + (if o == Success then 1 else 0)
            && t.forwarding.failed == s.forwarding.failed + (if o == Failure then 1 else 0)
            && |t.ring| == |s.ring|
            && t.ring[i].outcome == o && t.ring[i].id == s.ring[i].id && t.ring[i].timestamp == s.ring[i].timestamp
            && t.ring[i].eventType == s.ring[i].eventType && t.ring[i].summary == s.ring[i].summary
            && (latency >= 0 ==>
                  1_000_000 * t.ring[i].latencyMs <= latency < 1_000_000 * t.ring[i].latencyMs + 1_000_000)
            && (err.Some? ==> t.ring[i].error == err) && (err.None? ==> t.ring[i].error == s.ring[i].error)
            && t.counters == s.counters && t.totalEvents == s.totalEvents && t.dropCount == s.dropCount
  {
  }

  /** A push result counts as success or failure; success clears the last error, a failure without one keeps it. */
  lemma PushResultIsRecorded(s: StoreState, success: bool, now: int, latency: int, err: Option<Error>)
    requires 1 <= s.capacity
    ensures var t := Apply(s, RecordPushResult(success, now, latency, err));
            && t.push.successes == s.push.successes + (if success then 1 else 0)
            && t.push.failures == s.push.failures + (if success then 0 else 1)
            && t.push.lastError == (if success then None else if err.None? then s.push.lastError else err)
            && t.push.lastPushAt == now
            && (latency >= 0 ==>
                  1_000_000 * t.push.lastLatencyMs <= latency < 1_000_000 * t.push.lastLatencyMs + 1_000_000)
            && t.push.attempts == s.push.attempts && t.push.dropped == s.push.dropped
            && t.ring == s.ring && t.counters == s.counters && t.forwarding == s.forwarding
            && t.calendarSync == s.calendarSync
  {
  }

  /** The same for a calendar poll, which also shows its summary whether it succeeded or not. */
  lemma CalendarPollIsRecorded(s: StoreState, success: bool, summary: string, now: int, err: Option<Error>)
    requires 1 <= s.capacity
    ensures var t := Apply(s, RecordCalendarPoll(success, summary, now, err)).calendarSync;
            var was := s.calendarSync;
            && t.polls == was.polls + 1
            && t.succeeded == was.succeeded + (if success then 1 else 0)
            && t.failed == was.failed + (if success then 0 else 1)
            && t.lastError == (if success then None else if err.None? then was.lastError else err)
            && t.lastPollAt == now && t.activeSummary == summary
  {
  }

  // ---- The store in the source's form ----

  class Store {
    var counters: Counters
    var forwarding: Forwarding
    var push: Push
    var calendarSync: CalendarSync
    var ringBuffer: seq<EventTrace>
    var nextID: nat
    var totalEvents: nat
    var maxRingCapacity: nat
    var dropCount: nat

    function View(): StoreState
      reads this
    {
      StoreState(counters, forwarding, push, calendarSync, ringBuffer, nextID, totalEvents,
                      maxRingCapacity, dropCount)
    }

    ghost predicate Valid()
      reads this
    {
      View().RingValid()
    }

    constructor ()
      ensures Valid() && View() == Empty(CAPACITY)
    {
      counters := Counters(0, 0, 0, 0);
      forwarding := Forwarding(0, 0, 0);
      push := Push(0, 0, 0, 0, 0, 0, None);
      calendarSync := CalendarSync(0, 0, 0, 0, None, "");
      ringBuffer := [];
      nextID, totalEvents, maxRingCapacity, dropCount := 0, 0, CAPACITY, 0;
    }

    method RecordEvent(eventType: string, summary: string, now: int) returns (id: int)
      requires Valid()
      modifies this
      ensures Valid() && id == nextID == old(nextID) + 1
      ensures View() == Apply(old(View()), Call.RecordEvent(eventType, summary, now))
    {
      hide ToLower, StoreState.RingValid;
      RecordKeepsRing(View(), eventType, summary, now);
      nextID := nextID + 1;
      id := nextID;
      totalEvents := totalEvents + 1;
      var t := ToLower(eventType);
      if t == "button" || t == "buttons" {
        counters := counters.(buttons := counters.buttons + 1);
      } else if t == "switch" || t == "switches" {
        counters := counters.(switches := counters.switches + 1);
      } else if t == "encoder" || t == "encoders" {
        counters := counters.(encoders := counters.encoders + 1);
      } else {
        counters := counters.(other := counters.other + 1);
      }
      var trace := EventTrace(id, now, eventType, summary, Pending, None, 0);
      if |ringBuffer| >= maxRingCapacity {
        ringBuffer := ringBuffer[1..] + [trace];
      } else {
        ringBuffer := ringBuffer + [trace];
      }
    }

    method RecordForwardOutcome(id: int, outcome: Outcome, latency: int, err: Option<Error>)
      requires Valid()
      modifies this
      ensures Valid()
      ensures View() == Apply(old(View()), Call.RecordForwardOutcome(id, outcome, latency, err))
    {
      hide EventTrace.WithOutcome, Settle, StoreState.RingValid;
      OutcomeTouchesOnlyItsTrace(View(), id, outcome, latency, err);
      forwarding := forwarding.(dispatched := forwarding.dispatched + 1);
      match outcome {
        case Success => forwarding := forwarding.(acked := forwarding.acked + 1);
        case Failure => forwarding := forwarding.(failed := forwarding.failed + 1);
        case Pending =>
      }
      var i := 0;
      while i < |ringBuffer|
        invariant 0 <= i <= |ringBuffer| && ringBuffer == old(ringBuffer)
        invariant forall k :: 0 <= k < i ==> ringBuffer[k].id != id
        invariant unchanged(`counters) && unchanged(`push) && unchanged(`calendarSync) && unchanged(`nextID)
        invariant unchanged(`totalEvents) && unchanged(`maxRingCapacity) && unchanged(`dropCount)
      {
        if ringBuffer[i].id == id {
          SettleAtIndex(old(View()), i, id, outcome, latency, err);
          var trace := ringBuffer[i].(outcome := outcome);
          trace := trace.(latencyMs := TruncDiv(latency, 1_000_000));
          if err.Some? {
            trace := trace.(error := err);
          }
          OutcomeFields(ringBuffer[i], trace, outcome, latency, err);
          ringBuffer := ringBuffer[i := trace];
          break;
        }
        i := i + 1;
      }
      if i == |ringBuffer| {
        SettleNowhere(ringBuffer, id, outcome, latency, err);
      }
    }

    method RecordDrop()
      requires Valid()
      modifies this
      ensures Valid() && View() == Apply(old(View()), Call.RecordDrop)
    {
      dropCount := dropCount + 1;
    }

    method RecordPushAttempt()
      requires Valid()
      modifies this
      ensures Valid() && View() == Apply(old(View()), Call.RecordPushAttempt)
    {
      push := push.(attempts := push.attempts + 1);
    }

    method RecordPushResult(success: bool, now: int, latency: int, err: Option<Error>)
      requires Valid()
      modifies this
      ensures Valid() && View() == Apply(old(View()), Call.RecordPushResult(success, now, latency, err))
    {
      push := push.(lastPushAt := now);
      push := push.(lastLatencyMs := TruncDiv(latency, 1_000_000));
      if success {
        push := push.(successes := push.successes + 1);
        push := push.(lastError := None);
      } else {
        push := push.(failures := push.failures + 1);
        if err.Some? {
          push := push.(lastError := err);
        }
      }
    }

    method RecordPushDrop()
      requires Valid()
      modifies this
      ensures Valid() && View() == Apply(old(View()), Call.RecordPushDrop)
    {
      push := push.(dropped := push.dropped + 1);
    }

    method RecordCalendarPoll(success: bool, activeSummary: string, now: int, err: Option<Error>)
      requires Valid()
      modifies this
      ensures Valid() && View() == Apply(old(View()), Call.RecordCalendarPoll(success, activeSummary, now, err))
    {
      calendarSync := calendarSync.(polls := calendarSync.polls + 1, lastPollAt := now, activeSummary := activeSummary);
      if success {
        calendarSync := calendarSync.(succeeded := calendarSync.succeeded + 1, lastError := None);
      } else {
        calendarSync := calendarSync.(failed := calendarSync.failed + 1);
        if err.Some? {
          calendarSync := calendarSync.(lastError := err);
        }
      }
    }
  }
}
