/** internal/hass/client.go: the client object, each method run without interference.  DeliverySystem
    interleaves the same methods step by step; the lemmas at the end say that a method run alone is the
    run of its steps. */
module HassClient {
  import opened Basics
  import opened Telemetry
  import opened HassEvent
  import opened HassDispatch
  import opened DeliverySystem

  datatype StartError = ErrAlreadyStarted | ErrAlreadyClosed

  function Stamped(e: Event, now: int): Event {
    if e.createdAt.None? then e.(createdAt := Some(now)) else e
  }

  /** The ledger after the worker has dispatched one event per oracle, the oldest first. */
  function Worked(cfg: Config, store: StoreState, queue: seq<Event>, oracles: seq<Oracle>): (after: StoreState)
    requires 1 <= store.capacity && |oracles| <= |queue|
    ensures after.capacity == store.capacity
    decreases |oracles|
  {
    if oracles == [] then store
    else
      var settlement := Dispatched(cfg, queue[0], oracles[0]).settlement;
      Worked(cfg, Settled(store, TraceID(queue[0]), settlement), queue[1..], oracles[1..])
  }

  class Client {
    const cfg: Config
    const store: Store
    var eventsChan: seq<Event>
    var channelClosed: bool
    var started: bool
    var closed: bool
    var cancelled: bool
    var overflowDrops: nat

    ghost predicate Valid()
      reads this, store
    {
      cfg.Valid() && store.Valid() && |eventsChan| <= cfg.bufferSize && (channelClosed <==> closed)
    }

    constructor (cfg: Config, store: Store)
      requires cfg.Valid() && store.Valid()
      ensures Valid() && this.cfg == cfg && this.store == store
      ensures eventsChan == [] && !started && !closed && !cancelled && overflowDrops == 0
    {
      this.cfg, this.store := cfg, store;
      eventsChan, channelClosed, started, closed, cancelled, overflowDrops := [], false, false, false, false, 0;
    }

    method Start() returns (err: Option<StartError>)
      requires Valid()
      modifies `started
      ensures Valid()
      ensures err == if old(started) then Some(ErrAlreadyStarted) else if closed then Some(ErrAlreadyClosed) else None
      ensures started == (old(started) || !closed)
    {
      if started {
        return Some(ErrAlreadyStarted);
      }
      if closed {
        return Some(ErrAlreadyClosed);
      }
      started := true;
      err := None;
    }

    method Enqueue(event: Event, now: int) returns (ok: bool)
      requires Valid()
      modifies `eventsChan, `overflowDrops, store
      ensures Valid()
      ensures ok <==> !closed && |old(eventsChan)| < cfg.bufferSize
      ensures eventsChan == old(eventsChan) + (if ok then [Stamped(event, now)] else [])
      ensures overflowDrops == old(overflowDrops) + (if ok then 0 else 1)
      ensures store.View() == if ok then old(store.View()) else Apply(old(store.View()), RecordDrop)
    {
      var e := event;
      if e.createdAt.None? {
        e := e.(createdAt := Some(now));
      }
      if closed {
        overflowDrops := overflowDrops + 1;
        store.RecordDrop();
        return false;
      }
      if |eventsChan| < cfg.bufferSize {
        eventsChan := eventsChan + [e];
        return true;
      } else {
        overflowDrops := overflowDrops + 1;
        store.RecordDrop();
        return false;
      }
    }

    method Close()
      requires Valid()
      modifies `closed, `channelClosed, `cancelled
      ensures Valid() && closed && channelClosed
      ensures cancelled == (old(cancelled) || (started && !old(closed)))
    {
      if closed {
        return;
      }
      closed := true;
      if started {
        cancelled := true;
      }
      channelClosed := true;
    }

    /** The worker's loop up to the moment its context is done, after one event per oracle. */
    method Worker(oracles: seq<Oracle>)
      requires Valid() && |oracles| <= |eventsChan|
      requires forall i :: 0 <= i < |oracles| ==> |oracles[i].tries| == cfg.maxRetries + 1
      modifies `eventsChan, store
      ensures Valid() && eventsChan == old(eventsChan)[|oracles|..]
      ensures store.View() == Worked(cfg, old(store.View()), old(eventsChan), oracles)
    {
      hide Dispatched, Settled, Apply;
      var n := 0;
      while n < |oracles|
        invariant 0 <= n <= |oracles| && Valid()
        invariant eventsChan == old(eventsChan)[n..]
        invariant Worked(cfg, store.View(), eventsChan, oracles[n..])
               == Worked(cfg, old(store.View()), old(eventsChan), oracles)
      {
        var event := eventsChan[0];
        assert oracles[n..][1..] == oracles[n + 1..];
        eventsChan := eventsChan[1..];
        var report := Dispatch(cfg, event, oracles[n], store);
        n := n + 1;
      }
    }
  }

  ghost predicate HasRoom(s: State) {
    1 <= s.stores.Runner().capacity && 1 <= s.stores.Client().capacity
  }

  /** Five steps of one producer with nobody in between: what Enqueue alone makes of the machine is what
      Client.Enqueue promises. */
  lemma EnqueueAlone(s: State, p: nat, now: int)
    requires HasRoom(s) && s.gate.closer.Free? && p in s.hands && s.hands[p].Recorded?
    requires s.gate.channelClosed ==> s.gate.closed
    ensures var t := Do(Do(Do(Do(Do(s, ReadLock(p, now)), CheckClosed(p)), Send(p)), CountDrop(p)), ReportDrop(p));
            var ok := !s.gate.closed && |s.queue| < s.cfg.bufferSize;
            && t.gate == s.gate && t.hands == s.hands - {p}
            && t.queue == s.queue + (if ok then [Stamped(s.hands[p].event, now)] else [])
            && t.overflowDrops == s.overflowDrops + (if ok then 0 else 1)
            && t.stores == if ok then s.stores else s.stores.WithClient(Apply(s.stores.Client(), RecordDrop))
  {
    hide Apply, Moved;
    var e := Stamped(s.hands[p].event, now);
    var s2 := Do(Do(s, ReadLock(p, now)), CheckClosed(p));
    assert s2 == s.(hands := s.hands[p := if s.gate.closed then Rejected(e) else Cleared(e)]);
  }

  /** Through the queue: an event Enqueue stamped at `queuedAt` is never sent once more than the TTL has passed since
      then, by the last check before each request, and an event that came with its own stamp keeps it. */
  lemma QueuedEventsExpire(cfg: Config, e: Event, queuedAt: int, o: Oracle)
    requires cfg.Valid() && |o.tries| == cfg.maxRetries + 1
    ensures var r := Dispatched(cfg, Stamped(e, queuedAt), o);
            var since := if e.createdAt.Some? then e.createdAt.value else queuedAt;
            && (o.checkedAt > since + cfg.ttl ==> r.requests == [] && r.settlement == Expired)
            && |r.requests| <= |o.tries|
            && (forall j :: 0 <= j < |r.requests| ==>
                  (if j == 0 then o.checkedAt else o.tries[j].resumedAt) <= since + cfg.ttl)
  {
    hide Dispatched, EndsAs;
    DispatchMeans(cfg, Stamped(e, queuedAt), o, if e.createdAt.Some? then e.createdAt.value else queuedAt);
  }

  /** The worker's ledger grows by one settlement at a time, each of the next event in the queue. */
  lemma {:induction false} WorkedOneMore(cfg: Config, store: StoreState, queue: seq<Event>, oracles: seq<Oracle>)
    requires 1 <= store.capacity && oracles != [] && |oracles| <= |queue|
    ensures var n := |oracles| - 1;
            Worked(cfg, store, queue, oracles)
            == Settled(Worked(cfg, store, queue, oracles[..n]), TraceID(queue[n]),
                       Dispatched(cfg, queue[n], oracles[n]).settlement)
    decreases |oracles|
  {
    hide Dispatched, Settled, TraceID;
    var n := |oracles| - 1;
    if n > 0 {
      var first := Settled(store, TraceID(queue[0]), Dispatched(cfg, queue[0], oracles[0]).settlement);
      SettledKeepsCapacity(store, TraceID(queue[0]), Dispatched(cfg, queue[0], oracles[0]).settlement);
      WorkedOneMore(cfg, first, queue[1..], oracles[1..]);
      assert oracles[..n][1..] == oracles[1..][..n - 1];
    } else {
      assert oracles[..0] == [] && oracles[1..] == [];
    }
  }

  lemma SettledKeepsCapacity(s: StoreState, id: int, settlement: Settlement)
    requires 1 <= s.capacity
    ensures Settled(s, id, settlement).capacity == s.capacity
  {
  }
}
