/** The event path as a transition system: runner.handleFrame records an event and enqueues it, the
    bounded queue of hass.Client is guarded by an RWMutex, one worker dispatches, and Close runs
    concurrently with all of it.  A step is one effect another goroutine can observe; a step that is not
    enabled leaves the state as it is, so every sequence of steps is a run. */
module DeliverySystem {
  import opened Basics
  import opened Telemetry
  import opened HassEvent
  import opened HassDispatch

  /** Where an event that has been recorded is. */
  datatype Place = InHand | Dropping | Overflowed | Queued | InFlight | Acked | Failed | Stale | GivenUp

  /** A goroutine in handleFrame: it has recorded the event; it is in Enqueue with the read lock; it has
      seen that the client is open; it is about to count a drop; it has counted it and will record it. */
  datatype Hand =
    | Recorded(event: Event)
    | Entered(event: Event)
    | Cleared(event: Event)
    | Rejected(event: Event)
    | Counted(event: Event)

  datatype Closer = Free | Locked | Cancelled

  datatype Worker = Absent | Selecting | Dispatching(event: Event) | Exited

  /** The runner and the client share one store unless WithStore replaces the runner's. */
  datatype Stores = Shared(store: StoreState) | Separate(runnerStore: StoreState, clientStore: StoreState)
  {
    function Runner(): StoreState { if Shared? then store else runnerStore }
    function Client(): StoreState { if Shared? then store else clientStore }
    function WithRunner(s: StoreState): Stores { if Shared? then Shared(s) else Separate(s, clientStore) }
    function WithClient(s: StoreState): Stores { if Shared? then Shared(s) else Separate(runnerStore, s) }
  }

  /** What the client's mutex guards; `closes` counts how often the channel was closed. */
  datatype Gate = Gate(closer: Closer, closed: bool, channelClosed: bool, started: bool, cancelled: bool,
                       closes: nat, panicked: bool)

  /** `accepted`, `taken`, `places` and `falseReturns` are history: the events the channel took in and gave
      out, where each recorded event is (entry i is trace ID i + 1), and how often Enqueue returned false. */
  datatype State = State(cfg: Config, stores: Stores, gate: Gate, hands: map<nat, Hand>,
                         queue: seq<Event>, worker: Worker, overflowDrops: nat,
                         accepted: seq<Event>, taken: seq<Event>, places: seq<Place>, falseReturns: nat)

  datatype Step =
    | Record(p: nat, event: Event, summary: string, now: int)
    | ReadLock(p: nat, now: int)
    | CheckClosed(p: nat)
    | Send(p: nat)
    | CountDrop(p: nat)
    | ReportDrop(p: nat)
    | Start
    | CloseLock
    | CloseCancel
    | CloseChannel
    | CancelParent
    | WorkerTake
    | WorkerSettle(oracle: Oracle)
    | WorkerQuit

  function Init(cfg: Config, shared: bool): State {
    State(cfg, if shared then Shared(Empty(CAPACITY)) else Separate(Empty(CAPACITY), Empty(CAPACITY)),
          Gate(Free, false, false, false, false, 0, false), map[], [], Absent, 0, [], [], [], 0)
  }

  /** A goroutine that is past Recorded holds the read lock. */
  predicate NoReaders(hands: map<nat, Hand>) {
    forall p :: p in hands ==> hands[p].Recorded?
  }

  function Moved(places: seq<Place>, id: int, to: Place): (r: seq<Place>)
    ensures |r| == |places|
  {
    if 1 <= id <= |places| then places[id - 1 := to] else places
  }

  function PlaceOf(settlement: Settlement): Place {
    match settlement
    case Delivered(_) => Acked
    case Refused(_, _) => Failed
    case Expired => Stale
    case Abandoned => GivenUp
  }

  predicate At(s: State, p: nat) {
    p in s.hands
  }

  function DoRecord(s: State, p: nat, event: Event, summary: string, now: int): State
    requires 1 <= s.stores.Runner().capacity
  {
    if At(s, p) then s
    else
      var store := Apply(s.stores.Runner(), RecordEvent(event.kind, summary, now));
      s.(stores := s.stores.WithRunner(store),
         hands := s.hands[p := Recorded(event.(traceID := store.nextID))],
         places := s.places + [InHand])
  }

  /** Enqueue takes the read lock, which no writer may hold, and stamps an event that has no creation time. */
  function DoReadLock(s: State, p: nat, now: int): State {
    if At(s, p) && s.hands[p].Recorded? && s.gate.closer.Free? then
      var e := s.hands[p].event;
      s.(hands := s.hands[p := Entered(if e.createdAt.None? then e.(createdAt := Some(now)) else e)])
    else s
  }

  function DoCheckClosed(s: State, p: nat): State {
    if At(s, p) && s.hands[p].Entered? then
      var e := s.hands[p].event;
      s.(hands := s.hands[p := if s.gate.closed then Rejected(e) else Cleared(e)])
    else s
  }

  /** The non-blocking select: a send on a closed channel panics. */
  function DoSend(s: State, p: nat): State {
    if At(s, p) && s.hands[p].Cleared? then
      var e := s.hands[p].event;
      if s.gate.channelClosed then s.(gate := s.gate.(panicked := true))
      else if |s.queue| < s.cfg.bufferSize then
        s.(queue := s.queue + [e], accepted := s.accepted + [e], hands := s.hands - {p},
           places := Moved(s.places, e.traceID, Queued))
      else s.(hands := s.hands[p := Rejected(e)])
    else s
  }

  function DoCountDrop(s: State, p: nat): State {
    if At(s, p) && s.hands[p].Rejected? then
      var e := s.hands[p].event;
      s.(overflowDrops := s.overflowDrops + 1, hands := s.hands[p := Counted(e)],
         places := Moved(s.places, e.traceID, Dropping))
    else s
  }

  function DoReportDrop(s: State, p: nat): State
    requires 1 <= s.stores.Client().capacity
  {
    if At(s, p) && s.hands[p].Counted? then
      s.(stores := s.stores.WithClient(Apply(s.stores.Client(), RecordDrop)),
         falseReturns := s.falseReturns + 1, hands := s.hands - {p},
         places := Moved(s.places, s.hands[p].event.traceID, Overflowed))
    else s
  }

  function DoStart(s: State): State {
    if s.gate.closer.Free? && NoReaders(s.hands) && !s.gate.started && !s.gate.closed then
      s.(gate := s.gate.(started := true), worker := Selecting)
    else s
  }

  /** Close takes the write lock; a client already closed releases it at once. */
  function DoCloseLock(s: State): State {
    if s.gate.closer.Free? && NoReaders(s.hands) && !s.gate.closed then
      s.(gate := s.gate.(closed := true, closer := Locked))
    else s
  }

  function DoCloseCancel(s: State): State {
    if s.gate.closer.Locked? then
      s.(gate := s.gate.(cancelled := s.gate.cancelled || s.gate.started, closer := Cancelled))
    else s
  }

  function DoCloseChannel(s: State): State {
    if s.gate.closer.Cancelled? then
      if s.gate.channelClosed then s.(gate := s.gate.(panicked := true))
      else s.(gate := s.gate.(channelClosed := true, closes := s.gate.closes + 1, closer := Free))
    else s
  }

  /** A closed channel still gives out what it holds. */
  function DoWorkerTake(s: State): State {
    if s.worker.Selecting? && |s.queue| > 0 then
      s.(queue := s.queue[1..], taken := s.taken + [s.queue[0]], worker := Dispatching(s.queue[0]),
         places := Moved(s.places, s.queue[0].traceID, InFlight))
    else s
  }

  /** The oracle may end a wait only if the worker's context has been cancelled. */
  predicate Allowed(s: State, o: Oracle) {
    && |o.tries| == s.cfg.maxRetries + 1
    && (s.gate.cancelled || forall k :: 0 <= k < |o.tries| ==> !o.tries[k].cancelled)
  }

  function DoWorkerSettle(s: State, o: Oracle): State
    requires 1 <= s.stores.Client().capacity
  {
    if s.worker.Dispatching? && Allowed(s, o) then
      var e := s.worker.event;
      var settlement := Dispatched(s.cfg, e, o).settlement;
      s.(stores := s.stores.WithClient(Settled(s.stores.Client(), TraceID(e), settlement)),
         worker := Selecting, places := Moved(s.places, e.traceID, PlaceOf(settlement)))
    else s
  }

  function DoWorkerQuit(s: State): State {
    if s.worker.Selecting? && (s.gate.cancelled || (s.gate.channelClosed && s.queue == [])) then
      s.(worker := Exited)
    else s
  }

  function Do(s: State, step: Step): (t: State)
    requires 1 <= s.stores.Runner().capacity && 1 <= s.stores.Client().capacity
    ensures t.stores.Runner().capacity == s.stores.Runner().capacity
    ensures t.stores.Client().capacity == s.stores.Client().capacity
  {
    match step
    case Record(p, event, summary, now) => DoRecord(s, p, event, summary, now)
    case ReadLock(p, now) => DoReadLock(s, p, now)
    case CheckClosed(p) => DoCheckClosed(s, p)
    case Send(p) => DoSend(s, p)
    case CountDrop(p) => DoCountDrop(s, p)
    case ReportDrop(p) => DoReportDrop(s, p)
    case Start => DoStart(s)
    case CloseLock => DoCloseLock(s)
    case CloseCancel => DoCloseCancel(s)
    case CloseChannel => DoCloseChannel(s)
    case CancelParent => s.(gate := s.gate.(cancelled := true))
    case WorkerTake => DoWorkerTake(s)
    case WorkerSettle(o) => DoWorkerSettle(s, o)
    case WorkerQuit => DoWorkerQuit(s)
  }

  // ---- The invariant, group by group ----

  ghost predicate GateInv(g: Gate, hands: map<nat, Hand>) {
    && !g.panicked
    && (g.closer.Free? || (NoReaders(hands) && g.closed && !g.channelClosed))
    && (g.channelClosed ==> g.closed && g.closer.Free?)
    && (g.closed && g.closer.Free? ==> g.channelClosed)
    && (g.started && (g.closer.Cancelled? || g.channelClosed) ==> g.cancelled)
    && g.closes == (if g.channelClosed then 1 else 0)
    && (forall p :: p in hands && hands[p].Cleared? ==> !g.closed)
  }

  ghost predicate QueueInv(cfg: Config, queue: seq<Event>, accepted: seq<Event>, taken: seq<Event>) {
    cfg.Valid() && |queue| <= cfg.bufferSize && accepted == taken + queue
  }

  ghost predicate StoresInv(stores: Stores, recorded: nat) {
    && stores.Runner().RingValid() && stores.Client().RingValid()
    && stores.Runner().nextID == stores.Runner().totalEvents == recorded
    && stores.Runner().counters.Sum() == recorded
    && (stores.Separate? ==> stores.Client().nextID == 0)
  }

  ghost predicate IsAt(places: seq<Place>, e: Event, place: Place) {
    1 <= e.traceID <= |places| && places[e.traceID - 1] == place
  }

  ghost predicate HandsInv(hands: map<nat, Hand>, places: seq<Place>) {
    && (forall p :: p in hands ==> IsAt(places, hands[p].event, if hands[p].Counted? then Dropping else InHand))
    && (forall p, q :: p in hands && q in hands && p != q ==> hands[p].event.traceID != hands[q].event.traceID)
  }

  ghost predicate PlacesInv(queue: seq<Event>, worker: Worker, places: seq<Place>) {
    && (forall k :: 0 <= k < |queue| ==> IsAt(places, queue[k], Queued))
    && (forall j, k :: 0 <= j < k < |queue| ==> queue[j].traceID != queue[k].traceID)
    && (worker.Dispatching? ==> IsAt(places, worker.event, InFlight))
  }

  ghost function Count(places: seq<Place>, place: Place): nat {
    multiset(places)[place]
  }

  function Busy(w: Worker): nat { if w.Dispatching? then 1 else 0 }

  ghost predicate CountsInv(hands: nat, queued: nat, busy: nat, overflowDrops: nat, falseReturns: nat,
                            cancelled: bool, places: seq<Place>)
  {
    && hands == Count(places, InHand) + Count(places, Dropping)
    && queued == Count(places, Queued)
    && busy == Count(places, InFlight)
    && overflowDrops == Count(places, Dropping) + Count(places, Overflowed)
    && falseReturns == Count(places, Overflowed)
    && (Count(places, GivenUp) > 0 ==> cancelled)
  }

  ghost predicate LedgerInv(f: Forwarding, dropCount: nat, places: seq<Place>) {
    && f.acked == Count(places, Acked)
    && f.failed == Count(places, Failed)
    && f.dispatched == Count(places, Acked) + Count(places, Failed)
    && dropCount == Count(places, Overflowed) + Count(places, Stale)
  }

  function OutcomeOf(place: Place): Outcome {
    match place
    case Acked => Success
    case Failed => Failure
    case _ => Pending
  }

  ghost predicate RingInv(shared: bool, ring: seq<EventTrace>, places: seq<Place>) {
    forall i :: 0 <= i < |ring| ==>
      && 1 <= ring[i].id <= |places|
      && ring[i].outcome == if shared then OutcomeOf(places[ring[i].id - 1]) else Pending
  }

  ghost predicate Inv(s: State) {
    && GateInv(s.gate, s.hands)
    && (s.worker.Absent? <==> !s.gate.started)
    && QueueInv(s.cfg, s.queue, s.accepted, s.taken)
    && StoresInv(s.stores, |s.places|)
    && HandsInv(s.hands, s.places)
    && PlacesInv(s.queue, s.worker, s.places)
    && CountsInv(|s.hands|, |s.queue|, Busy(s.worker), s.overflowDrops, s.falseReturns, s.gate.cancelled, s.places)
    && LedgerInv(s.stores.Client().forwarding, s.stores.Client().dropCount, s.places)
    && RingInv(s.stores.Shared?, s.stores.Runner().ring, s.places)
  }

  lemma InitInv(cfg: Config, shared: bool)
    requires cfg.Valid()
    ensures Inv(Init(cfg, shared))
  {
    assert forall q :: Count([], q) == 0;
  }

  // ---- What a step does to each group ----

  lemma MovedCounts(places: seq<Place>, id: int, to: Place)
    requires 1 <= id <= |places|
    ensures forall q :: Count(Moved(places, id, to), q)
                     == Count(places, q) - (if q == places[id - 1] then 1 else 0) + (if q == to then 1 else 0)
  {
  }

  lemma AppendedCounts(places: seq<Place>, last: Place)
    ensures forall q :: Count(places + [last], q) == Count(places, q) + (if q == last then 1 else 0)
  {
  }

  lemma HandAdded(hands: map<nat, Hand>, places: seq<Place>, p: nat, e: Event)
    requires HandsInv(hands, places) && p !in hands && e.traceID == |places| + 1
    ensures HandsInv(hands[p := Recorded(e)], places + [InHand])
    ensures |hands[p := Recorded(e)]| == |hands| + 1
  {
  }

  lemma HandAdvanced(hands: map<nat, Hand>, places: seq<Place>, p: nat, h: Hand, to: Place)
    requires HandsInv(hands, places) && p in hands
    requires h.event.traceID == hands[p].event.traceID && to == (if h.Counted? then Dropping else InHand)
    ensures HandsInv(hands[p := h], Moved(places, h.event.traceID, to))
    ensures |hands[p := h]| == |hands|
  {
    assert hands[p := h].Keys == hands.Keys;
    var after, hands' := Moved(places, h.event.traceID, to), hands[p := h];
    forall q | q in hands'
      ensures IsAt(after, hands'[q].event, if hands'[q].Counted? then Dropping else InHand)
    {
      assert q in hands && (q != p ==> hands[q].event.traceID != h.event.traceID);
    }
  }

  lemma HandGone(hands: map<nat, Hand>, places: seq<Place>, p: nat, to: Place)
    requires HandsInv(hands, places) && p in hands
    ensures HandsInv(hands - {p}, Moved(places, hands[p].event.traceID, to))
    ensures |hands - {p}| == |hands| - 1
  {
    assert (hands - {p}).Keys == hands.Keys - {p};
  }

  lemma HandsElsewhere(hands: map<nat, Hand>, places: seq<Place>, id: int, to: Place)
    requires HandsInv(hands, places) && 1 <= id <= |places| && places[id - 1] !in {InHand, Dropping}
    ensures HandsInv(hands, Moved(places, id, to))
  {
  }

  lemma QueueElsewhere(queue: seq<Event>, worker: Worker, places: seq<Place>, id: int, to: Place)
    requires PlacesInv(queue, worker, places) && 1 <= id <= |places| && places[id - 1] !in {Queued, InFlight}
    ensures PlacesInv(queue, worker, Moved(places, id, to))
  {
  }

  lemma QueueGrows(queue: seq<Event>, worker: Worker, places: seq<Place>, e: Event)
    requires PlacesInv(queue, worker, places) && IsAt(places, e, InHand)
    ensures PlacesInv(queue + [e], worker, Moved(places, e.traceID, Queued))
  {
  }

  lemma QueueShrinks(queue: seq<Event>, worker: Worker, places: seq<Place>)
    requires PlacesInv(queue, worker, places) && |queue| > 0
    ensures PlacesInv(queue[1..], Dispatching(queue[0]), Moved(places, queue[0].traceID, InFlight))
    ensures IsAt(places, queue[0], Queued)
  {
  }

  lemma RingUnmoved(shared: bool, ring: seq<EventTrace>, places: seq<Place>, id: int, to: Place)
    requires RingInv(shared, ring, places) && 1 <= id <= |places| && OutcomeOf(places[id - 1]) == OutcomeOf(to)
    ensures RingInv(shared, ring, Moved(places, id, to))
  {
  }

  /** A move between two places that are neither Acked nor Failed leaves the ring's story as it is; so does
      any move the counters account for. */
  ghost predicate Quiet(place: Place) {
    OutcomeOf(place) == Pending && place != Overflowed && place != Stale
  }

  lemma QuietMove(places: seq<Place>, id: int, to: Place, f: Forwarding, dropCount: nat)
    requires 1 <= id <= |places| && Quiet(places[id - 1]) && Quiet(to)
    requires LedgerInv(f, dropCount, places)
    ensures LedgerInv(f, dropCount, Moved(places, id, to))
  {
    MovedCounts(places, id, to);
  }

  lemma RingAppends(shared: bool, ring: seq<EventTrace>, capacity: nat, places: seq<Place>, t: EventTrace)
    requires 1 <= capacity && RingInv(shared, ring, places) && t.id == |places| + 1 && t.outcome == Pending
    ensures RingInv(shared, Append(ring, capacity, t), places + [InHand])
  {
    var ring' := Append(ring, capacity, t);
    var moved := if |ring| >= capacity then 1 else 0;
    assert forall i :: 0 <= i < |ring'| - 1 ==> ring'[i] == ring[i + moved];
  }

  lemma StoresRecord(stores: Stores, recorded: nat, kind: string, summary: string, now: int)
    requires StoresInv(stores, recorded)
    ensures var stores' := stores.WithRunner(Apply(stores.Runner(), RecordEvent(kind, summary, now)));
            && StoresInv(stores', recorded + 1)
            && stores'.Client().forwarding == stores.Client().forwarding
            && stores'.Client().dropCount == stores.Client().dropCount
            && stores'.Runner().nextID == recorded + 1
  {
  }

  lemma RingRecords(stores: Stores, places: seq<Place>, kind: string, summary: string, now: int)
    requires StoresInv(stores, |places|) && RingInv(stores.Shared?, stores.Runner().ring, places)
    ensures var stores' := stores.WithRunner(Apply(stores.Runner(), RecordEvent(kind, summary, now)));
            && RingInv(stores.Shared?, stores'.Runner().ring, places + [InHand])
            && StoresInv(stores', |places| + 1)
            && stores'.Client().forwarding == stores.Client().forwarding
            && stores'.Client().dropCount == stores.Client().dropCount
            && stores'.Runner().nextID == |places| + 1
  {
    hide RingInv, Append;
    StoresRecord(stores, |places|, kind, summary, now);
    var store := stores.Runner();
    RingAppends(stores.Shared?, store.ring, store.capacity, places,
                EventTrace(store.nextID + 1, now, kind, summary, Pending, None, 0));
  }

  lemma StoresHaveRoom(stores: Stores, recorded: nat)
    requires StoresInv(stores, recorded)
    ensures 1 <= stores.Runner().capacity && 1 <= stores.Client().capacity
  {
  }

  lemma QueueUntouched(queue: seq<Event>, worker: Worker, places: seq<Place>)
    requires PlacesInv(queue, worker, places)
    ensures PlacesInv(queue, worker, places + [InHand])
  {
  }

  lemma RecordCounts(s: State, t: State)
    requires t.places == s.places + [InHand] && |t.hands| == |s.hands| + 1
    requires CountsInv(|s.hands|, |s.queue|, Busy(s.worker), s.overflowDrops, s.falseReturns, s.gate.cancelled,
                       s.places)
    requires LedgerInv(s.stores.Client().forwarding, s.stores.Client().dropCount, s.places)
    ensures CountsInv(|t.hands|, |s.queue|, Busy(s.worker), s.overflowDrops, s.falseReturns, s.gate.cancelled, t.places)
    ensures LedgerInv(s.stores.Client().forwarding, s.stores.Client().dropCount, t.places)
  {
    AppendedCounts(s.places, InHand);
  }

  // ---- Every step keeps the invariant ----

  lemma RecordKeepsInv(s: State, p: nat, event: Event, summary: string, now: int)
    requires Inv(s)
    ensures Inv(DoRecord(s, p, event, summary, now))
  {
    hide HandsInv, CountsInv, LedgerInv, RingInv, PlacesInv, StoresInv, QueueInv, Apply;
    StoresHaveRoom(s.stores, |s.places|);
    var t := DoRecord(s, p, event, summary, now);
    if !At(s, p) {
      RingRecords(s.stores, s.places, event.kind, summary, now);
      HandAdded(s.hands, s.places, p, t.hands[p].event);
      RecordCounts(s, t);
      QueueUntouched(s.queue, s.worker, s.places);
    }
  }

  lemma ReadLockKeepsInv(s: State, p: nat, now: int)
    requires Inv(s)
    ensures Inv(DoReadLock(s, p, now))
  {
    var t := DoReadLock(s, p, now);
    if At(s, p) && t != s {
      HandAdvanced(s.hands, s.places, p, t.hands[p], InHand);
      assert Moved(s.places, t.hands[p].event.traceID, InHand) == s.places;
      hide HandsInv, CountsInv, LedgerInv, RingInv, PlacesInv, StoresInv;
    }
  }

  lemma CheckClosedKeepsInv(s: State, p: nat)
    requires Inv(s)
    ensures Inv(DoCheckClosed(s, p))
  {
    var t := DoCheckClosed(s, p);
    if At(s, p) && t != s {
      HandAdvanced(s.hands, s.places, p, t.hands[p], InHand);
      assert Moved(s.places, t.hands[p].event.traceID, InHand) == s.places;
      hide HandsInv, CountsInv, LedgerInv, RingInv, PlacesInv, StoresInv;
    }
  }

  lemma HandIsAt(hands: map<nat, Hand>, places: seq<Place>, p: nat)
    requires HandsInv(hands, places) && p in hands
    ensures IsAt(places, hands[p].event, if hands[p].Counted? then Dropping else InHand)
  {
  }

  lemma ClearedMeansOpen(g: Gate, hands: map<nat, Hand>, p: nat)
    requires GateInv(g, hands) && p in hands && hands[p].Cleared?
    ensures !g.channelClosed
  {
  }

  lemma GateForgets(g: Gate, hands: map<nat, Hand>, p: nat)
    requires GateInv(g, hands)
    ensures GateInv(g, hands - {p})
  {
  }

  lemma DropReported(stores: Stores, recorded: nat)
    requires StoresInv(stores, recorded)
    ensures var stores' := stores.WithClient(Apply(stores.Client(), Call.RecordDrop));
            && StoresInv(stores', recorded)
            && stores'.Client().forwarding == stores.Client().forwarding
            && stores'.Client().dropCount == stores.Client().dropCount + 1
            && stores'.Runner().ring == stores.Runner().ring
  {
  }

  lemma EnqueueCounts(s: State, t: State, id: int)
    requires 1 <= id <= |s.places| && s.places[id - 1] == InHand && t.places == Moved(s.places, id, Queued)
    requires |t.hands| == |s.hands| - 1 && |t.queue| == |s.queue| + 1
    requires CountsInv(|s.hands|, |s.queue|, Busy(s.worker), s.overflowDrops, s.falseReturns, s.gate.cancelled,
                       s.places)
    ensures CountsInv(|t.hands|, |t.queue|, Busy(s.worker), s.overflowDrops, s.falseReturns, s.gate.cancelled, t.places)
  {
    MovedCounts(s.places, id, Queued);
  }

  lemma QueueGives(cfg: Config, queue: seq<Event>, accepted: seq<Event>, taken: seq<Event>)
    requires QueueInv(cfg, queue, accepted, taken) && |queue| > 0
    ensures QueueInv(cfg, queue[1..], accepted, taken + [queue[0]])
  {
  }

  lemma QueueAccepts(cfg: Config, queue: seq<Event>, accepted: seq<Event>, taken: seq<Event>, e: Event)
    requires QueueInv(cfg, queue, accepted, taken) && |queue| < cfg.bufferSize
    ensures QueueInv(cfg, queue + [e], accepted + [e], taken)
  {
  }

  lemma SendQueuesKeepsInv(s: State, p: nat)
    requires Inv(s) && At(s, p) && s.hands[p].Cleared? && |s.queue| < s.cfg.bufferSize
    ensures Inv(DoSend(s, p))
  {
    hide HandsInv, GateInv, CountsInv, LedgerInv, RingInv, PlacesInv, StoresInv, QueueInv, Moved;
    var e := s.hands[p].event;
    HandIsAt(s.hands, s.places, p);
    ClearedMeansOpen(s.gate, s.hands, p);
    HandGone(s.hands, s.places, p, Queued);
    GateForgets(s.gate, s.hands, p);
    QueueAccepts(s.cfg, s.queue, s.accepted, s.taken, e);
    QueueGrows(s.queue, s.worker, s.places, e);
    RingUnmoved(s.stores.Shared?, s.stores.Runner().ring, s.places, e.traceID, Queued);
    QuietMove(s.places, e.traceID, Queued, s.stores.Client().forwarding, s.stores.Client().dropCount);
    EnqueueCounts(s, DoSend(s, p), e.traceID);
  }

  lemma SendRejectsKeepsInv(s: State, p: nat)
    requires Inv(s) && At(s, p) && s.hands[p].Cleared? && |s.queue| >= s.cfg.bufferSize
    ensures Inv(DoSend(s, p))
  {
    var e := s.hands[p].event;
    HandIsAt(s.hands, s.places, p);
    ClearedMeansOpen(s.gate, s.hands, p);
    HandAdvanced(s.hands, s.places, p, Rejected(e), InHand);
    hide HandsInv, CountsInv, LedgerInv, RingInv, PlacesInv, StoresInv;
    assert Moved(s.places, e.traceID, InHand) == s.places;
  }

  lemma SendKeepsInv(s: State, p: nat)
    requires Inv(s)
    ensures Inv(DoSend(s, p))
  {
    if At(s, p) && s.hands[p].Cleared? {
      hide Inv, DoSend;
      if |s.queue| < s.cfg.bufferSize {
        SendQueuesKeepsInv(s, p);
      } else {
        SendRejectsKeepsInv(s, p);
      }
    }
  }

  lemma CountDropCounts(s: State, id: int)
    requires 1 <= id <= |s.places| && s.places[id - 1] == InHand
    requires CountsInv(|s.hands|, |s.queue|, Busy(s.worker), s.overflowDrops, s.falseReturns, s.gate.cancelled,
                       s.places)
    ensures CountsInv(|s.hands|, |s.queue|, Busy(s.worker), s.overflowDrops + 1, s.falseReturns, s.gate.cancelled,
                      Moved(s.places, id, Dropping))
  {
    MovedCounts(s.places, id, Dropping);
  }

  lemma CountDropKeepsInv(s: State, p: nat)
    requires Inv(s)
    ensures Inv(DoCountDrop(s, p))
  {
    hide HandsInv, CountsInv, LedgerInv, RingInv, PlacesInv, StoresInv, QueueInv, Moved;
    var t := DoCountDrop(s, p);
    if At(s, p) && s.hands[p].Rejected? {
      var e := s.hands[p].event;
      HandIsAt(s.hands, s.places, p);
      HandAdvanced(s.hands, s.places, p, t.hands[p], Dropping);
      QueueElsewhere(s.queue, s.worker, s.places, e.traceID, Dropping);
      RingUnmoved(s.stores.Shared?, s.stores.Runner().ring, s.places, e.traceID, Dropping);
      QuietMove(s.places, e.traceID, Dropping, s.stores.Client().forwarding, s.stores.Client().dropCount);
      CountDropCounts(s, e.traceID);
    }
  }

  lemma ReportDropCounts(s: State, t: State, id: int)
    requires 1 <= id <= |s.places| && s.places[id - 1] == Dropping && t.places == Moved(s.places, id, Overflowed)
    requires |t.hands| == |s.hands| - 1
    requires CountsInv(|s.hands|, |s.queue|, Busy(s.worker), s.overflowDrops, s.falseReturns, s.gate.cancelled,
                       s.places)
    requires LedgerInv(s.stores.Client().forwarding, s.stores.Client().dropCount, s.places)
    ensures CountsInv(|t.hands|, |s.queue|, Busy(s.worker), s.overflowDrops, s.falseReturns + 1, s.gate.cancelled,
                      t.places)
    ensures LedgerInv(s.stores.Client().forwarding, s.stores.Client().dropCount + 1, t.places)
  {
    MovedCounts(s.places, id, Overflowed);
  }

  lemma ReportDropKeepsInv(s: State, p: nat)
    requires Inv(s)
    ensures Inv(DoReportDrop(s, p))
  {
    hide HandsInv, GateInv, CountsInv, LedgerInv, RingInv, PlacesInv, StoresInv, QueueInv, Apply, Moved;
    StoresHaveRoom(s.stores, |s.places|);
    var t := DoReportDrop(s, p);
    if At(s, p) && s.hands[p].Counted? {
      var e := s.hands[p].event;
      HandIsAt(s.hands, s.places, p);
      HandGone(s.hands, s.places, p, Overflowed);
      GateForgets(s.gate, s.hands, p);
      DropReported(s.stores, |s.places|);
      QueueElsewhere(s.queue, s.worker, s.places, e.traceID, Overflowed);
      RingUnmoved(s.stores.Shared?, s.stores.Runner().ring, s.places, e.traceID, Overflowed);
      ReportDropCounts(s, t, e.traceID);
    }
  }

  /** Start, Close and the contexts move no event. */
  lemma ControlKeepsInv(s: State)
    requires Inv(s)
    ensures Inv(DoStart(s)) && Inv(DoCloseLock(s)) && Inv(DoCloseCancel(s)) && Inv(DoCloseChannel(s))
    ensures Inv(s.(gate := s.gate.(cancelled := true))) && Inv(DoWorkerQuit(s))
  {
    hide HandsInv, LedgerInv, RingInv, StoresInv, QueueInv, Count;
  }

  lemma TakeCounts(s: State, id: int)
    requires 1 <= id <= |s.places| && s.places[id - 1] == Queued && |s.queue| > 0
    requires CountsInv(|s.hands|, |s.queue|, 0, s.overflowDrops, s.falseReturns, s.gate.cancelled, s.places)
    ensures CountsInv(|s.hands|, |s.queue[1..]|, 1, s.overflowDrops, s.falseReturns, s.gate.cancelled,
                      Moved(s.places, id, InFlight))
  {
    MovedCounts(s.places, id, InFlight);
  }

  lemma WorkerTakeKeepsInv(s: State)
    requires Inv(s)
    ensures Inv(DoWorkerTake(s))
  {
    hide HandsInv, CountsInv, LedgerInv, RingInv, StoresInv, GateInv, PlacesInv, QueueInv, Moved;
    if s.worker.Selecting? && |s.queue| > 0 {
      var e := s.queue[0];
      QueueGives(s.cfg, s.queue, s.accepted, s.taken);
      QueueShrinks(s.queue, s.worker, s.places);
      HandsElsewhere(s.hands, s.places, e.traceID, InFlight);
      RingUnmoved(s.stores.Shared?, s.stores.Runner().ring, s.places, e.traceID, InFlight);
      QuietMove(s.places, e.traceID, InFlight, s.stores.Client().forwarding, s.stores.Client().dropCount);
      TakeCounts(s, e.traceID);
    }
  }

  lemma SettleCounts(s: State, id: int, settlement: Settlement)
    requires 1 <= id <= |s.places| && s.places[id - 1] == InFlight && 1 <= s.stores.Client().capacity
    requires settlement.Abandoned? ==> s.gate.cancelled
    requires CountsInv(|s.hands|, |s.queue|, 1, s.overflowDrops, s.falseReturns, s.gate.cancelled, s.places)
    requires LedgerInv(s.stores.Client().forwarding, s.stores.Client().dropCount, s.places)
    ensures CountsInv(|s.hands|, |s.queue|, 0, s.overflowDrops, s.falseReturns, s.gate.cancelled,
                      Moved(s.places, id, PlaceOf(settlement)))
    ensures var client := Settled(s.stores.Client(), id, settlement);
            LedgerInv(client.forwarding, client.dropCount, Moved(s.places, id, PlaceOf(settlement)))
  {
    MovedCounts(s.places, id, PlaceOf(settlement));
  }

  lemma RingSettles(stores: Stores, places: seq<Place>, id: int, settlement: Settlement)
    requires StoresInv(stores, |places|) && RingInv(stores.Shared?, stores.Runner().ring, places)
    requires 1 <= id <= |places| && places[id - 1] == InFlight
    ensures var stores' := stores.WithClient(Settled(stores.Client(), id, settlement));
            && StoresInv(stores', |places|)
            && RingInv(stores.Shared?, stores'.Runner().ring, Moved(places, id, PlaceOf(settlement)))
  {
  }

  lemma WorkerSettleKeepsInv(s: State, o: Oracle)
    requires Inv(s)
    ensures Inv(DoWorkerSettle(s, o))
  {
    if s.worker.Dispatching? && Allowed(s, o) {
      var e := s.worker.event;
      var settlement := Dispatched(s.cfg, e, o).settlement;
      AbandonedOnlyIfCancelled(s.cfg, e, o);
      hide Dispatched;
      QueueElsewhereWhenSettled(s.queue, e, s.places, PlaceOf(settlement));
      HandsElsewhere(s.hands, s.places, e.traceID, PlaceOf(settlement));
      RingSettles(s.stores, s.places, e.traceID, settlement);
      SettleCounts(s, e.traceID, settlement);
      hide HandsInv, CountsInv, LedgerInv, RingInv, PlacesInv, StoresInv, Settled;
    }
  }

  lemma AbandonedOnlyIfCancelled(cfg: Config, e: Event, o: Oracle)
    requires cfg.Valid() && |o.tries| == cfg.maxRetries + 1
    ensures Dispatched(cfg, e, o).settlement.Abandoned? ==> exists k :: 0 < k < |o.tries| && o.tries[k].cancelled
  {
    if o.checkedAt - CreatedAt(e, o.now) <= cfg.ttl && o.marshalled {
      SettlementExplained(cfg, e, o);
    }
  }

  lemma QueueElsewhereWhenSettled(queue: seq<Event>, e: Event, places: seq<Place>, to: Place)
    requires PlacesInv(queue, Dispatching(e), places)
    ensures PlacesInv(queue, Selecting, Moved(places, e.traceID, to))
    ensures IsAt(places, e, InFlight)
  {
  }

  lemma StepKeepsInv(s: State, step: Step)
    requires Inv(s)
    ensures Inv(Do(s, step))
  {
    hide Inv, DoRecord, DoReadLock, DoCheckClosed, DoSend, DoCountDrop, DoReportDrop, DoStart, DoCloseLock,
         DoCloseCancel, DoCloseChannel, DoWorkerTake, DoWorkerSettle, DoWorkerQuit;
    match step
    case Record(p, event, summary, now) => RecordKeepsInv(s, p, event, summary, now);
    case ReadLock(p, now) => ReadLockKeepsInv(s, p, now);
    case CheckClosed(p) => CheckClosedKeepsInv(s, p);
    case Send(p) => SendKeepsInv(s, p);
    case CountDrop(p) => CountDropKeepsInv(s, p);
    case ReportDrop(p) => ReportDropKeepsInv(s, p);
    case WorkerTake => WorkerTakeKeepsInv(s);
    case WorkerSettle(o) => WorkerSettleKeepsInv(s, o);
    case _ => ControlKeepsInv(s);
  }

  // ---- Every run ----

  function Run(s: State, steps: seq<Step>): (t: State)
    requires 1 <= s.stores.Runner().capacity && 1 <= s.stores.Client().capacity
    ensures t.stores.Runner().capacity == s.stores.Runner().capacity
    ensures t.stores.Client().capacity == s.stores.Client().capacity
  {
    if steps == [] then s else Do(Run(s, steps[..|steps| - 1]), steps[|steps| - 1])
  }

  lemma {:induction false} RunKeepsInv(cfg: Config, shared: bool, steps: seq<Step>)
    requires cfg.Valid()
    ensures Inv(Run(Init(cfg, shared), steps))
  {
    hide Inv, Do;
    if steps == [] {
      InitInv(cfg, shared);
    } else {
      RunKeepsInv(cfg, shared, steps[..|steps| - 1]);
      StepKeepsInv(Run(Init(cfg, shared), steps[..|steps| - 1]), steps[|steps| - 1]);
    }
  }

  ghost predicate Reachable(cfg: Config, shared: bool, s: State) {
    exists steps :: s == Run(Init(cfg, shared), steps)
  }

  lemma ReachableKeepsInv(cfg: Config, shared: bool, s: State)
    requires cfg.Valid() && Reachable(cfg, shared, s)
    ensures Inv(s) && s.cfg == cfg && s.stores.Shared? == shared
  {
    hide Inv, Do;
    var steps :| s == Run(Init(cfg, shared), steps);
    ConfigIsFixed(cfg, shared, steps);
    RunKeepsInv(cfg, shared, steps);
  }

  lemma {:induction false} CountsAddUp(places: seq<Place>)
    ensures |places| == Count(places, InHand) + Count(places, Dropping) + Count(places, Overflowed)
                        + Count(places, Queued) + Count(places, InFlight) + Count(places, Acked)
                        + Count(places, Failed) + Count(places, Stale) + Count(places, GivenUp)
  {
    if places != [] {
      var n := |places| - 1;
      assert places == places[..n] + [places[n]];
      CountsAddUp(places[..n]);
      AppendedCounts(places[..n], places[n]);
    }
  }

  /** Conservation, in every reachable state of every interleaving of any number of producers: the events the
      runner has recorded are exactly those the client has reported forwarded or dropped, those in the queue,
      the one in flight, those given up by a cancelled dispatch, and those still in a producer's hands. */
  lemma EventsAreConserved(cfg: Config, shared: bool, s: State)
    requires cfg.Valid() && Reachable(cfg, shared, s)
    ensures var runner, client := s.stores.Runner(), s.stores.Client();
            && runner.totalEvents == client.forwarding.dispatched + client.dropCount + |s.queue| + Busy(s.worker)
                                     + Count(s.places, GivenUp) + |s.hands|
            && client.forwarding.dispatched == client.forwarding.acked + client.forwarding.failed
            && runner.totalEvents == runner.counters.Sum()
            && (Count(s.places, GivenUp) > 0 ==> s.gate.cancelled)
  {
    hide Run, Reachable, HandsInv, PlacesInv, RingInv, GateInv, Count;
    ReachableKeepsInv(cfg, shared, s);
    CountsAddUp(s.places);
  }

  /** The queue protocol, in every reachable state: nothing is sent on or closes a closed channel, it is closed
      at most once and only by Close, the queue fits the buffer and gives events out in the order it took them,
      and overflowDrops counts the calls that returned false, plus those about to. */
  lemma QueueProtocol(cfg: Config, shared: bool, s: State)
    requires cfg.Valid() && Reachable(cfg, shared, s)
    ensures !s.gate.panicked
    ensures s.gate.closes <= 1
    ensures s.gate.channelClosed <==> s.gate.closes == 1
    ensures s.gate.channelClosed ==> s.gate.closed && (s.gate.started ==> s.gate.cancelled)
    ensures |s.queue| <= cfg.bufferSize
    ensures s.accepted == s.taken + s.queue
    ensures s.overflowDrops == s.falseReturns + Count(s.places, Dropping)
    ensures s.hands == map[] ==> s.overflowDrops == s.falseReturns
  {
    ReachableKeepsInv(cfg, shared, s);
    hide Run, Reachable, HandsInv, PlacesInv, RingInv, StoresInv, LedgerInv, Count;
  }

  lemma {:induction false} ConfigIsFixed(cfg: Config, shared: bool, steps: seq<Step>)
    ensures Run(Init(cfg, shared), steps).cfg == cfg
    ensures Run(Init(cfg, shared), steps).stores.Shared? == shared
  {
    if steps != [] {
      ConfigIsFixed(cfg, shared, steps[..|steps| - 1]);
    }
  }

  /** Every event past the read lock has a creation time. */
  ghost predicate StampInv(hands: map<nat, Hand>, accepted: seq<Event>, queue: seq<Event>, worker: Worker) {
    && (forall p :: p in hands && !hands[p].Recorded? ==> hands[p].event.createdAt.Some?)
    && (forall e :: e in accepted ==> e.createdAt.Some?)
    && (forall e :: e in queue ==> e.createdAt.Some?)
    && (worker.Dispatching? ==> worker.event.createdAt.Some?)
  }

  ghost predicate Stamps(s: State) {
    StampInv(s.hands, s.accepted, s.queue, s.worker)
  }

  lemma StepKeepsStamps(s: State, step: Step)
    requires Stamps(s) && 1 <= s.stores.Runner().capacity && 1 <= s.stores.Client().capacity
    ensures Stamps(Do(s, step))
  {
    hide Apply, Settled, Dispatched, Moved, Allowed, NoReaders;
  }

  lemma {:induction false} RunKeepsStamps(s: State, steps: seq<Step>)
    requires Stamps(s) && 1 <= s.stores.Runner().capacity && 1 <= s.stores.Client().capacity
    ensures Stamps(Run(s, steps))
  {
    hide Do, Stamps;
    if steps != [] {
      RunKeepsStamps(s, steps[..|steps| - 1]);
      StepKeepsStamps(Run(s, steps[..|steps| - 1]), steps[|steps| - 1]);
    }
  }

  /** In every reachable state the time to live of each event in the queue or in flight counts from a stamp. */
  lemma QueuedEventsAreStamped(cfg: Config, shared: bool, s: State, e: Event)
    requires Reachable(cfg, shared, s)
    ensures e in s.accepted || e in s.queue || s.worker == Dispatching(e) ==> e.createdAt.Some?
  {
    hide Do;
    var steps :| s == Run(Init(cfg, shared), steps);
    RunKeepsStamps(Init(cfg, shared), steps);
  }

  /** The worker's next statement, whatever `o` the oracle answers a dispatch with. */
  function NextOfWorker(s: State, o: Oracle): Step {
    if s.worker.Dispatching? then WorkerSettle(o) else if s.queue == [] then WorkerQuit else WorkerTake
  }

  predicate WorkerIsGone(w: Worker) {
    w.Absent? || w.Exited?
  }

  /** How many statements the worker of a closed client may still execute. */
  function WorkerStepsLeft(s: State): nat {
    match s.worker
    case Absent => 0
    case Exited => 0
    case Selecting => 2 * |s.queue| + 1
    case Dispatching(_) => 2 * |s.queue| + 2
  }

  lemma OracleExists(s: State) returns (o: Oracle)
    requires s.cfg.Valid()
    ensures Allowed(s, o)
  {
    o := Oracle(0, 0, true, 0, seq(s.cfg.maxRetries + 1, _ => Try(0, false, 0, NoAnswer, 0)));
  }

  lemma SettlingSteps(s: State, o: Oracle)
    requires 1 <= s.stores.Client().capacity && s.worker.Dispatching? && Allowed(s, o)
    ensures WorkerStepsLeft(DoWorkerSettle(s, o)) < WorkerStepsLeft(s)
  {
    hide Dispatched, Settled, Moved, Allowed;
  }

  lemma OnlyTheWorkerMovesItself(s: State, step: Step)
    requires GateInv(s.gate, s.hands) && s.gate.channelClosed
    requires 1 <= s.stores.Runner().capacity && 1 <= s.stores.Client().capacity
    ensures WorkerStepsLeft(Do(s, step)) <= WorkerStepsLeft(s)
    ensures Do(s, step).gate.channelClosed
  {
    hide Dispatched, Settled, Apply, Moved, Allowed, NoReaders;
  }

  /** Close never waits for ever: once the channel is closed, in every reachable state, the worker is gone or its
      next statement can run and leaves it fewer; no step of anyone else gives it more; and a dispatch always has an
      answer it may come back with.  So wg.Wait returns. */
  lemma CloseNeverDeadlocks(cfg: Config, shared: bool, s: State, step: Step, o: Oracle)
    requires cfg.Valid() && Reachable(cfg, shared, s) && s.gate.channelClosed
    ensures 1 <= s.stores.Runner().capacity && 1 <= s.stores.Client().capacity
    ensures !WorkerIsGone(s.worker) && Allowed(s, o) ==>
              WorkerStepsLeft(Do(s, NextOfWorker(s, o))) < WorkerStepsLeft(s)
    ensures WorkerStepsLeft(Do(s, step)) <= WorkerStepsLeft(s) && Do(s, step).gate.channelClosed
    ensures WorkerStepsLeft(s) == 0 <==> WorkerIsGone(s.worker)
    ensures exists any :: Allowed(s, any)
  {
    hide Run, Reachable, Allowed, HandsInv, PlacesInv, RingInv, LedgerInv, CountsInv, QueueInv, DoWorkerSettle;
    ReachableKeepsInv(cfg, shared, s);
    StoresHaveRoom(s.stores, |s.places|);
    OnlyTheWorkerMovesItself(s, step);
    var any := OracleExists(s);
    if s.worker.Dispatching? && Allowed(s, o) {
      SettlingSteps(s, o);
    }
  }

  /** What the status page shows: with a shared store every retained trace reads success exactly when its event
      was acknowledged, failure exactly when its delivery failed, and pending in every other case, dropped and
      abandoned events included.  With separate stores every trace stays pending. */
  lemma RingTellsTheTruth(cfg: Config, shared: bool, s: State, i: nat)
    requires cfg.Valid() && Reachable(cfg, shared, s)
    requires i < |s.stores.Runner().ring|
    ensures var trace := s.stores.Runner().ring[i];
            && 1 <= trace.id <= |s.places|
            && trace.outcome == if shared then OutcomeOf(s.places[trace.id - 1]) else Pending
  {
    hide Run, Reachable, HandsInv, PlacesInv, GateInv, StoresInv, LedgerInv, CountsInv;
    ReachableKeepsInv(cfg, shared, s);
  }

  /** The law read off one snapshot of the runner's store. */
  ghost predicate OneStoreLaw(s: State) {
    var store := s.stores.Runner();
    store.totalEvents == store.forwarding.dispatched + store.dropCount + |s.queue| + Busy(s.worker)
                         + Count(s.places, GivenUp) + |s.hands|
  }

  lemma RecordEventReportsNothing(store: StoreState, kind: string, summary: string, now: int)
    requires 1 <= store.capacity
    ensures var t := Apply(store, RecordEvent(kind, summary, now));
            t.forwarding == store.forwarding && t.dropCount == store.dropCount
  {
  }

  ghost predicate Unreported(store: StoreState) {
    store.forwarding.dispatched == 0 && store.dropCount == 0
  }

  lemma RunnerStoreOnlyRecords(s: State, step: Step)
    requires s.stores.Separate? && Unreported(s.stores.Runner())
    requires 1 <= s.stores.Runner().capacity && 1 <= s.stores.Client().capacity
    ensures Do(s, step).stores.Separate? ==> Unreported(Do(s, step).stores.Runner())
  {
    hide Dispatched, Settled, Allowed, Moved, Apply;
    match step {
      case Record(p, event, summary, now) => RecordEventReportsNothing(s.stores.Runner(), event.kind, summary, now);
      case _ =>
    }
  }

  lemma {:induction false} SeparateRunnerStoreIsNotReportedTo(cfg: Config, steps: seq<Step>)
    ensures Unreported(Run(Init(cfg, false), steps).stores.Runner())
  {
    hide Do;
    if steps != [] {
      SeparateRunnerStoreIsNotReportedTo(cfg, steps[..|steps| - 1]);
      ConfigIsFixed(cfg, false, steps[..|steps| - 1]);
      ConfigIsFixed(cfg, false, steps);
      RunnerStoreOnlyRecords(Run(Init(cfg, false), steps[..|steps| - 1]), steps[|steps| - 1]);
    }
  }

  /** It holds exactly when the stores are one, or nothing has been forwarded or dropped yet. */
  lemma OneStoreLawHoldsIff(cfg: Config, shared: bool, s: State)
    requires cfg.Valid() && Reachable(cfg, shared, s)
    ensures OneStoreLaw(s) <==>
              shared || s.stores.Client().forwarding.dispatched + s.stores.Client().dropCount == 0
  {
    hide Do, Count, Inv;
    EventsAreConserved(cfg, shared, s);
    ReachableKeepsInv(cfg, shared, s);
    if !shared {
      var steps :| s == Run(Init(cfg, shared), steps);
      SeparateRunnerStoreIsNotReportedTo(cfg, steps);
    }
  }

  lemma RunThen(s: State, steps: seq<Step>, step: Step)
    requires 1 <= s.stores.Runner().capacity && 1 <= s.stores.Client().capacity
    ensures Run(s, steps + [step]) == Do(Run(s, steps), step)
  {
    assert (steps + [step])[..|steps|] == steps;
  }

  lemma StepIsReachable(cfg: Config, shared: bool, s: State, step: Step)
    requires Reachable(cfg, shared, s)
    ensures 1 <= s.stores.Runner().capacity && 1 <= s.stores.Client().capacity
    ensures Reachable(cfg, shared, Do(s, step))
  {
    hide Do;
    var steps :| s == Run(Init(cfg, shared), steps);
    RunThen(Init(cfg, shared), steps, step);
  }

  lemma InitIsReachable(cfg: Config, shared: bool)
    ensures Reachable(cfg, shared, Init(cfg, shared))
  {
    assert Run(Init(cfg, shared), []) == Init(cfg, shared);
  }

  /** It does fail: with separate stores, one event enqueued after Close is dropped in the client's ledger only. */
  lemma SeparateStoresBreakTheLaw(cfg: Config, e: Event) returns (s: State)
    requires cfg.Valid()
    ensures Reachable(cfg, false, s) && !OneStoreLaw(s)
  {
    hide Reachable, Run, Moved, Count, OneStoreLaw, Apply;
    InitIsReachable(cfg, false);
    s := Init(cfg, false);
    StepIsReachable(cfg, false, s, CloseLock);
    s := Do(s, CloseLock);
    StepIsReachable(cfg, false, s, CloseCancel);
    s := Do(s, CloseCancel);
    StepIsReachable(cfg, false, s, CloseChannel);
    s := Do(s, CloseChannel);
    StepIsReachable(cfg, false, s, Record(0, e, "", 0));
    s := Do(s, Record(0, e, "", 0));
    StepIsReachable(cfg, false, s, ReadLock(0, 0));
    s := Do(s, ReadLock(0, 0));
    StepIsReachable(cfg, false, s, CheckClosed(0));
    s := Do(s, CheckClosed(0));
    StepIsReachable(cfg, false, s, CountDrop(0));
    s := Do(s, CountDrop(0));
    assert s.hands[0].Counted?;
    DropIsReported(s.stores.Client());
    StepIsReachable(cfg, false, s, ReportDrop(0));
    s := Do(s, ReportDrop(0));
    OneStoreLawHoldsIff(cfg, false, s);
  }

  lemma DropIsReported(store: StoreState)
    requires 1 <= store.capacity
    ensures Apply(store, RecordDrop).dropCount == store.dropCount + 1
    ensures Apply(store, RecordDrop).forwarding == store.forwarding
  {
  }

  predicate ByOneProducer(step: Step) {
    step.Record? ==> step.p == 0
  }

  /** The application runs one handleFrame at a time, so at most one event is recorded but not yet enqueued. */
  lemma {:induction false} OneProducerHoldsAtMostOne(cfg: Config, shared: bool, steps: seq<Step>)
    requires forall i :: 0 <= i < |steps| ==> ByOneProducer(steps[i])
    ensures var s := Run(Init(cfg, shared), steps);
            s.hands.Keys <= {0} && |s.hands| <= 1
  {
    var s := Run(Init(cfg, shared), steps);
    if steps != [] {
      OneProducerHoldsAtMostOne(cfg, shared, steps[..|steps| - 1]);
      assert s.hands.Keys <= {0};
    }
    if 0 in s.hands {
      assert s.hands.Keys == {0};
    } else {
      assert s.hands.Keys == {};
    }
    assert |s.hands| == |s.hands.Keys|;
  }
}
