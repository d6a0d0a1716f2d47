/** runner.handleFrame in the source's form: one binary frame is decoded, and each of its events is translated,
    recorded and enqueued. */
module Runner {
  import opened Basics
  import opened HassEvent
  import opened EventTranslation
  import Telemetry
  import HassClient
  import DeliverySystem

  /** `show` is the %v of package fmt, None being a missing key. */
  function FormatSummary(e: Event, show: Option<Value> -> string): string {
    if e.kind == "button" then "button " + TextAt(e.data, "button") + " " + TextAt(e.data, "action")
    else if e.kind == "switch" then "switch " + TextAt(e.data, "position")
    else if e.kind == "encoder" then "encoder " + show(if "delta" in e.data then Some(e.data["delta"]) else None)
    else e.kind
  }

  /** What a frame changes: the ledgers, the event queue and the count of refused events. */
  datatype Path = Path(stores: DeliverySystem.Stores, queue: seq<Event>, overflowDrops: nat)
  {
    predicate HasRoom() {
      1 <= stores.Runner().capacity && 1 <= stores.Client().capacity
    }
  }

  /** Record one event, then offer it to the queue of a client that is `closed` or holds `bufferSize` events. */
  function Fed(bufferSize: nat, closed: bool, p: Path, e: Event, summary: string, now: int): (t: Path)
    requires p.HasRoom()
    ensures t.HasRoom()
  {
    var store := Telemetry.Apply(p.stores.Runner(), Telemetry.RecordEvent(e.kind, summary, now));
    var stores := p.stores.WithRunner(store);
    if !closed && |p.queue| < bufferSize then
      Path(stores, p.queue + [HassClient.Stamped(e.(traceID := store.nextID), now)], p.overflowDrops)
    else
      Path(stores.WithClient(Telemetry.Apply(stores.Client(), Telemetry.RecordDrop)), p.queue, p.overflowDrops + 1)
  }

  /** A frame's events one after the other; the clock is read for each. */
  function Handled(bufferSize: nat, closed: bool, p: Path, events: seq<Normalized>, clock: nat -> int,
                   show: Option<Value> -> string): (t: Path)
    requires p.HasRoom()
    ensures t.HasRoom()
  {
    if events == [] then p
    else
      var n := |events| - 1;
      var before := Handled(bufferSize, closed, p, events[..n], clock, show);
      match TranslateEvent(events[n], clock(n))
      case None => before
      case Some(e) => Fed(bufferSize, closed, before, e, FormatSummary(e, show), clock(n))
  }

  class Runner {
    const deviceID: string
    const store: Telemetry.Store
    const hassClient: HassClient.Client

    ghost predicate Valid()
      reads this, store, hassClient, hassClient.store
    {
      store.Valid() && hassClient.Valid()
    }

    ghost function View(): Path
      reads this, store, hassClient, hassClient.store
    {
      Path(if store == hassClient.store then DeliverySystem.Shared(store.View())
           else DeliverySystem.Separate(store.View(), hassClient.store.View()),
           hassClient.eventsChan, hassClient.overflowDrops)
    }

    constructor (deviceID: string, store: Telemetry.Store, hassClient: HassClient.Client)
      requires store.Valid() && hassClient.Valid()
      ensures Valid() && this.deviceID == deviceID && this.store == store && this.hassClient == hassClient
    {
      this.deviceID, this.store, this.hassClient := deviceID, store, hassClient;
    }

    /** The loop's body: record the event, give it its trace ID and offer it to the client. */
    method Feed(event: Event, summary: string, now: int)
      requires Valid()
      modifies store, hassClient`eventsChan, hassClient`overflowDrops, hassClient.store
      ensures Valid()
      ensures View() == Fed(hassClient.cfg.bufferSize, hassClient.closed, old(View()), event, summary, now)
    {
      hide Telemetry.Apply;
      var traceID := store.RecordEvent(event.kind, summary, now);
      var ok := hassClient.Enqueue(event.(traceID := traceID), now);
    }

    /** A malformed frame changes nothing; any other has the effect of its input events in order. */
    method HandleFrame(frame: Option<StateMessage>, clock: nat -> int, show: Option<Value> -> string)
      returns (ghost events: seq<Normalized>)
      requires Valid()
      modifies store, hassClient`eventsChan, hassClient`overflowDrops, hassClient.store
      ensures Valid()
      ensures frame.None? ==> events == []
      ensures frame.Some? ==>
                NormalizesInputs(events, frame.value.updates, |frame.value.updates|, deviceID,
                                 DecodedTimestamp(frame.value.timestamp, clock(0) / 1_000_000_000))
      ensures View() == Handled(hassClient.cfg.bufferSize, hassClient.closed, old(View()), events, clock, show)
    {
      hide NormalizesInputs, DecodedTimestamp, TranslateEvent, FormatSummary, Fed;
      events := [];
      var decoded, _, _ := Decode(frame, deviceID, clock(0) / 1_000_000_000);
      if decoded.None? {
        return;
      }
      events := decoded.value;
      var n := 0;
      while n < |decoded.value|
        invariant 0 <= n <= |decoded.value| && Valid()
        invariant View() == Handled(hassClient.cfg.bufferSize, hassClient.closed, old(View()), events[..n], clock, show)
      {
        assert events[..n + 1][..n] == events[..n];
        var translated := TranslateEvent(decoded.value[n], clock(n));
        if translated.Some? {
          Feed(translated.value, FormatSummary(translated.value, show), clock(n));
        }
        n := n + 1;
      }
      assert events[..n] == events;
    }
  }

  // ---- What a frame comes to ----

  ghost predicate AllTranslate(events: seq<Normalized>, clock: nat -> int) {
    forall i :: 0 <= i < |events| ==> TranslateEvent(events[i], clock(i)).Some?
  }

  /** Every event Decode makes is accepted by TranslateEvent. */
  lemma DecodedEventsTranslate(events: seq<Normalized>, updates: seq<Update>, deviceID: string, ts: int,
                               clock: nat -> int)
    requires NormalizesInputs(events, updates, |updates|, deviceID, ts)
    ensures AllTranslate(events, clock)
  {
    forall i | 0 <= i < |events| ensures TranslateEvent(events[i], clock(i)).Some? {
      var u := updates[..|updates|][InputPositions(updates[..|updates|])[i]];
      assert events[i] == Normalize(u, deviceID, ts);
    }
  }

  /** Event i of a frame as the queue holds it, when the ledger's last ID before the frame was `lastID`. */
  function Traced(events: seq<Normalized>, clock: nat -> int, lastID: int, i: nat): Event
    requires i < |events| && TranslateEvent(events[i], clock(i)).Some?
  {
    HassClient.Stamped(TranslateEvent(events[i], clock(i)).value.(traceID := lastID + 1 + i), clock(i))
  }

  function RoomLeft(bufferSize: nat, closed: bool, queue: seq<Event>): nat {
    if closed || |queue| >= bufferSize then 0 else bufferSize - |queue|
  }

  lemma FedCounts(bufferSize: nat, closed: bool, p: Path, e: Event, summary: string, now: int)
    requires p.HasRoom()
    ensures var t := Fed(bufferSize, closed, p, e, summary, now);
            var taken := RoomLeft(bufferSize, closed, p.queue) > 0;
            && t.queue == p.queue + (if taken
                                     then [HassClient.Stamped(e.(traceID := p.stores.Runner().nextID + 1), now)]
                                     else [])
            && t.overflowDrops == p.overflowDrops + (if taken then 0 else 1)
            && t.stores.Client().dropCount == p.stores.Client().dropCount + (if taken then 0 else 1)
            && t.stores.Runner().totalEvents == p.stores.Runner().totalEvents + 1
            && t.stores.Runner().nextID == p.stores.Runner().nextID + 1
  {
    hide Telemetry.Append;
  }

  /** The events of a frame are recorded under consecutive IDs; as many of the first as fit are queued, in order and
      under their IDs, and every other one is refused and counted, in the client and in its ledger. */
  lemma {:induction false} FrameIsAccountedFor(bufferSize: nat, closed: bool, p: Path, events: seq<Normalized>,
                                               clock: nat -> int, show: Option<Value> -> string)
    requires p.HasRoom() && AllTranslate(events, clock)
    ensures var t := Handled(bufferSize, closed, p, events, clock, show);
            var queued := Min(RoomLeft(bufferSize, closed, p.queue), |events|);
            var lastID := p.stores.Runner().nextID;
            && |t.queue| == |p.queue| + queued && p.queue <= t.queue
            && (forall i :: 0 <= i < queued ==> t.queue[|p.queue| + i] == Traced(events, clock, lastID, i))
            && t.overflowDrops == p.overflowDrops + |events| - queued
            && t.stores.Client().dropCount == p.stores.Client().dropCount + |events| - queued
            && t.stores.Runner().totalEvents == p.stores.Runner().totalEvents + |events|
            && t.stores.Runner().nextID == lastID + |events|
  {
    hide Fed, TranslateEvent, FormatSummary, HassClient.Stamped;
    if events != [] {
      var n := |events| - 1;
      assert AllTranslate(events[..n], clock) by {
        forall i | 0 <= i < n ensures TranslateEvent(events[..n][i], clock(i)).Some? {
          assert events[..n][i] == events[i];
        }
      }
      FrameIsAccountedFor(bufferSize, closed, p, events[..n], clock, show);
      var before := Handled(bufferSize, closed, p, events[..n], clock, show);
      var e := TranslateEvent(events[n], clock(n)).value;
      FedCounts(bufferSize, closed, before, e, FormatSummary(e, show), clock(n));
      var t := Handled(bufferSize, closed, p, events, clock, show);
      assert t == Fed(bufferSize, closed, before, e, FormatSummary(e, show), clock(n));
      var lastID := p.stores.Runner().nextID;
      var room := RoomLeft(bufferSize, closed, p.queue);
      forall i | 0 <= i < Min(room, |events|) ensures t.queue[|p.queue| + i] == Traced(events, clock, lastID, i) {
        if i < n {
          assert Traced(events[..n], clock, lastID, i) == Traced(events, clock, lastID, i);
          assert before.queue[|p.queue| + i] == Traced(events[..n], clock, lastID, i);
        }
      }
    }
  }

  /** Feed is a run of the transition system: one producer's Record and the steps of its Enqueue, with nobody in
      between. */
  lemma FeedAlone(s: DeliverySystem.State, p: nat, event: Event, summary: string, now: int)
    requires s.cfg.Valid() && HassClient.HasRoom(s) && s.gate.closer.Free? && p !in s.hands
    requires s.gate.channelClosed ==> s.gate.closed
    ensures var r := DeliverySystem.Do(s, DeliverySystem.Record(p, event, summary, now));
            var t := DeliverySystem.Do(DeliverySystem.Do(DeliverySystem.Do(DeliverySystem.Do(DeliverySystem.Do(r,
                       DeliverySystem.ReadLock(p, now)), DeliverySystem.CheckClosed(p)), DeliverySystem.Send(p)),
                       DeliverySystem.CountDrop(p)), DeliverySystem.ReportDrop(p));
            && t.hands == s.hands && t.gate == s.gate
            && Path(t.stores, t.queue, t.overflowDrops)
               == Fed(s.cfg.bufferSize, s.gate.closed, Path(s.stores, s.queue, s.overflowDrops), event, summary, now)
  {
    hide Telemetry.Apply, DeliverySystem.DoReadLock, DeliverySystem.DoCheckClosed, DeliverySystem.DoSend,
      DeliverySystem.DoCountDrop, DeliverySystem.DoReportDrop, HassClient.Stamped;
    var r := DeliverySystem.Do(s, DeliverySystem.Record(p, event, summary, now));
    assert r.hands - {p} == s.hands;
    HassClient.EnqueueAlone(r, p, now);
  }

  /** The summary of each event the bridge builds. */
  lemma SummaryMeans(device: string, b: string, a: string, p: string, delta: int, ts: int, now: int,
                     show: Option<Value> -> string)
    ensures FormatSummary(NewButtonEvent(device, b, a, ts, now), show) == "button " + b + " " + a
    ensures FormatSummary(NewSwitchEvent(device, p, ts, now), show) == "switch " + p
    ensures FormatSummary(NewEncoderEvent(device, delta, ts, now), show) == "encoder " + show(Some(Int(delta)))
  {
    assert "button"[0] != "action"[0] && "button"[0] != "switch"[0] && "switch"[0] != "encoder"[0];
  }

  /** What the status page shows of a fed event: it is the newest trace of the runner's ledger, whether it was then
      queued or refused. */
  lemma FedEventIsNewest(bufferSize: nat, closed: bool, p: Path, e: Event, summary: string, now: int)
    requires p.HasRoom() && p.stores.Runner().RingValid()
    ensures var ring := Fed(bufferSize, closed, p, e, summary, now).stores.Runner().ring;
            && ring != []
            && (var newest := ring[|ring| - 1];
                && newest.id == p.stores.Runner().nextID + 1 && newest.eventType == e.kind && newest.summary == summary
                && newest.timestamp == now && newest.outcome == Telemetry.Pending)
  {
    hide Telemetry.Append;
    Telemetry.RecordedEventIsNewest(p.stores.Runner(), e.kind, summary, now);
  }
}
