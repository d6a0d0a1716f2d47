/** internal/busybar/decoder.go, runner.TranslateEvent and pkg/pb/event.go: from the updates of a
    decoded state message to the fields posted to Home Assistant, by two independent serializers. */
module EventTranslation {
  import opened Basics
  import opened Float64
  import opened HassEvent

  /** One repeated update.  Wire enumerations are open, so their values are integers. */
  datatype Update =
    | NilUpdate
    | NoInput
    | UnknownEvent
    | NilDetails
    | ButtonUpdate(button: int, action: int)
    | SwitchUpdate(position: int)
    | EncoderUpdate(delta: int)

  /** `timestamp` is the uint64 of the wire. */
  datatype StateMessage = StateMessage(timestamp: nat, updates: seq<Update>)

  datatype Button = UnknownButton | Ok | Back | Start
  datatype Action = UnknownAction | Press | Release
  datatype Position = UnknownPosition | Busy | Custom | Off | Apps | Settings

  datatype Details =
    | Absent
    | NilInner
    | ButtonDetails(device: string, button: Button, action: Action, timestamp: int)
    | SwitchDetails(device: string, position: Position, timestamp: int)
    | EncoderDetails(device: string, delta: int, timestamp: int)

  datatype Normalized = Normalized(device: string, timestamp: int, event: Details)

  function MapButton(b: int): Button {
    if b == 0 then Ok else if b == 1 then Back else if b == 2 then Start else UnknownButton
  }

  function MapButtonAction(a: int): Action {
    if a == 0 then Press else if a == 1 then Release else UnknownAction
  }

  function MapSwitchPosition(p: int): Position {
    if p == 0 then Busy else if p == 1 then Custom else if p == 2 then Off
    else if p == 3 then Apps else if p == 4 then Settings else UnknownPosition
  }

  predicate IsInput(u: Update) {
    u.ButtonUpdate? || u.SwitchUpdate? || u.EncoderUpdate?
  }

  function Normalize(u: Update, deviceID: string, ts: int): Normalized
    requires IsInput(u)
  {
    Normalized(deviceID, ts,
      match u
      case ButtonUpdate(b, a) => ButtonDetails(deviceID, MapButton(b), MapButtonAction(a), ts)
      case SwitchUpdate(p) => SwitchDetails(deviceID, MapSwitchPosition(p), ts)
      case EncoderUpdate(d) => EncoderDetails(deviceID, d, ts))
  }

  /** The message's timestamp as an int64, or the clock's seconds when that is not positive. */
  function DecodedTimestamp(wire: nat, now: int): int {
    if Wrap64(wire) <= 0 then now else Wrap64(wire)
  }

  /** The positions of the input events, in order. */
  function InputPositions(updates: seq<Update>): (ps: seq<nat>)
    ensures forall i :: 0 <= i < |ps| ==> ps[i] < |updates| && IsInput(updates[ps[i]])
  {
    if updates == [] then []
    else
      var n := |updates| - 1;
      var before := InputPositions(updates[..n]);
      if IsInput(updates[n]) then before + [n] else before
  }

  ghost predicate NormalizesInputs(kept: seq<Normalized>, updates: seq<Update>, k: nat, deviceID: string, ts: int)
    requires k <= |updates|
  {
    var ps := InputPositions(updates[..k]);
    && |kept| == |ps|
    && forall i :: 0 <= i < |ps| ==> kept[i] == Normalize(updates[ps[i]], deviceID, ts)
  }

  /** They are all of them, each once, in increasing order. */
  lemma {:induction false} InputPositionsComplete(updates: seq<Update>)
    ensures var ps := InputPositions(updates);
            && (forall i, j :: 0 <= i < j < |ps| ==> ps[i] < ps[j])
            && (forall k :: 0 <= k < |updates| ==>
                  (updates[k].ButtonUpdate? || updates[k].SwitchUpdate? || updates[k].EncoderUpdate? <==> k in ps))
  {
    if updates != [] {
      InputPositionsComplete(updates[..|updates| - 1]);
    }
  }

  lemma NothingReadYet(updates: seq<Update>, deviceID: string, ts: int)
    ensures NormalizesInputs([], updates, 0, deviceID, ts)
  {
  }

  lemma NextUpdate(kept: seq<Normalized>, updates: seq<Update>, k: nat, deviceID: string, ts: int)
    requires k < |updates| && NormalizesInputs(kept, updates, k, deviceID, ts)
    ensures NormalizesInputs(if IsInput(updates[k]) then kept + [Normalize(updates[k], deviceID, ts)] else kept,
                             updates, k + 1, deviceID, ts)
  {
    hide Normalize, IsInput;
    assert updates[..k + 1][..k] == updates[..k];
    assert InputPositions(updates[..k + 1])
        == InputPositions(updates[..k]) + (if IsInput(updates[k]) then [k] else []);
  }

  /** Decode: a malformed payload is an error; otherwise there is one normalized event for each input
      update and no other, in the order of the message. */
  method Decode(payload: Option<StateMessage>, deviceID: string, now: int)
    returns (events: Option<seq<Normalized>>, successesRecorded: nat, errorsRecorded: nat)
    ensures payload.None? ==> events.None? && successesRecorded == 0 && errorsRecorded == 1
    ensures payload.Some? ==>
      var updates := payload.value.updates;
      && events.Some? && successesRecorded == |events.value| && errorsRecorded == 0
      && NormalizesInputs(events.value, updates, |updates|, deviceID,
                          DecodedTimestamp(payload.value.timestamp, now))
  {
    hide Wrap64, MapButton, MapButtonAction, MapSwitchPosition, NormalizesInputs, InputPositions;
    successesRecorded, errorsRecorded := 0, 0;
    if payload.None? {
      errorsRecorded := 1;
      return None, successesRecorded, errorsRecorded;
    }
    var updates := payload.value.updates;
    var ts := Wrap64(payload.value.timestamp);
    if ts <= 0 {
      ts := now;
    }
    var kept: seq<Normalized> := [];
    var k := 0;
    NothingReadYet(updates, deviceID, ts);
    while k < |updates|
      invariant 0 <= k <= |updates|
      invariant NormalizesInputs(kept, updates, k, deviceID, ts)
    {
      NextUpdate(kept, updates, k, deviceID, ts);
      var u := updates[k];
      k := k + 1;
      match u {
        case NilUpdate => continue;
        case NoInput => continue;
        case NilDetails => continue;
        case UnknownEvent => continue;
        case ButtonUpdate(b, a) =>
          kept := kept + [Normalized(deviceID, ts, ButtonDetails(deviceID, MapButton(b), MapButtonAction(a), ts))];
        case SwitchUpdate(p) =>
          kept := kept + [Normalized(deviceID, ts, SwitchDetails(deviceID, MapSwitchPosition(p), ts))];
        case EncoderUpdate(d) =>
          kept := kept + [Normalized(deviceID, ts, EncoderDetails(deviceID, d, ts))];
      }
    }
    if |kept| > 0 {
      successesRecorded := |kept|;
    }
    events := Some(kept);
  }

  function ButtonText(b: Button): string {
    match b case Ok => "ok" case Back => "back" case Start => "start" case UnknownButton => "unknown"
  }

  function ActionText(a: Action): string {
    match a case Press => "press" case Release => "release" case UnknownAction => "unknown"
  }

  function PositionText(p: Position): string {
    match p
    case Busy => "busy" case Custom => "custom" case Off => "off"
    case Apps => "apps" case Settings => "settings" case UnknownPosition => "unknown"
  }

  /** runner.TranslateEvent.  `clock` is the wall clock in nanoseconds. */
  function TranslateEvent(n: Normalized, clock: int): Option<Event> {
    var device := if n.device == "" then "busybar" else n.device;
    var ts := if n.timestamp <= 0 then clock / 1_000_000_000 else n.timestamp;
    match n.event
    case Absent => None
    case NilInner => None
    case ButtonDetails(d, b, a, _) =>
      Some(NewButtonEvent(if d != "" then d else device, ButtonText(b), ActionText(a), ts, clock))
    case SwitchDetails(d, p, _) =>
      Some(NewSwitchEvent(if d != "" then d else device, PositionText(p), ts, clock))
    case EncoderDetails(d, delta, _) =>
      Some(NewEncoderEvent(if d != "" then d else device, delta, ts, clock))
  }

  /** The object NormalizedEvent.ToHomeAssistantJSON writes. */
  function ToHomeAssistantJSON(n: Normalized): Option<map<string, Value>> {
    match n.event
    case Absent => None
    case NilInner => None
    case ButtonDetails(d, b, a, t) =>
      Some(map["device" := Str(if n.device == "" then d else n.device), "type" := Str("button"),
               "button" := Str(ButtonText(b)), "action" := Str(ActionText(a)),
               "timestamp" := Int(if n.timestamp == 0 then t else n.timestamp)])
    case SwitchDetails(d, p, t) =>
      Some(map["device" := Str(if n.device == "" then d else n.device), "type" := Str("switch"),
               "position" := Str(PositionText(p)),
               "timestamp" := Int(if n.timestamp == 0 then t else n.timestamp)])
    case EncoderDetails(d, delta, t) =>
      Some(map["device" := Str(if n.device == "" then d else n.device), "type" := Str("encoder"),
               "delta" := Int(delta),
               "timestamp" := Int(if n.timestamp == 0 then t else n.timestamp)])
  }

  /** Every decoded event is accepted by the translation, and the two serializers write the same object
      exactly when the device ID is non-empty and the decoded timestamp is positive (or is what the
      translating clock reads anyway). */
  lemma SerializersAgree(u: Update, deviceID: string, ts: int, clock: int)
    requires IsInput(u)
    ensures var n := Normalize(u, deviceID, ts);
            && TranslateEvent(n, clock).Some?
            && ToHomeAssistantJSON(n).Some?
            && (Fields(TranslateEvent(n, clock).value) == ToHomeAssistantJSON(n).value
                <==> deviceID != "" && (ts > 0 || ts == clock / 1_000_000_000))
  {
    var n := Normalize(u, deviceID, ts);
    var ours := Fields(TranslateEvent(n, clock).value);
    var theirs := ToHomeAssistantJSON(n).value;
    KeysAreDistinct();
    assert "button"[0] != "action"[0];
    assert ours.Keys == theirs.Keys;
    assert "device" in ours && ours["device"] == Str(if deviceID == "" then "busybar" else deviceID);
    assert theirs["device"] == Str(deviceID);
    assert ours["timestamp"] == Int(if ts <= 0 then clock / 1_000_000_000 else ts);
    assert theirs["timestamp"] == Int(ts);
    assert forall k :: k in ours && k != "device" && k != "timestamp" ==> ours[k] == theirs[k];
  }

  /** The device the posted event names. */
  function DeviceName(deviceID: string): string {
    if deviceID == "" then "busybar" else deviceID
  }

  /** What is read from an event as the payload of an update is that payload. */
  predicate ReadsAs(back: Event, u: Update, device: string, ts: int, platform: Platform) {
    match u
    case ButtonUpdate(b, a) =>
      ToButtonPayload(back) == Some(ButtonPayload(device, ButtonText(MapButton(b)), ActionText(MapButtonAction(a)), ts))
    case SwitchUpdate(p) =>
      ToSwitchPayload(back) == Some(SwitchPayload(device, PositionText(MapSwitchPosition(p)), ts))
    case EncoderUpdate(d) =>
      ToEncoderPayload(back, platform) == Some(EncoderPayload(device, d, ts))
    case _ => false
  }

  /** End to end: a button, switch or encoder update is decoded, translated, posted and read back as its own payload
      exactly when its timestamp survives float64, for every device ID and every positive int64 timestamp. */
  lemma DecodedEventsRoundTrip(u: Update, deviceID: string, ts: int, clock: int, receiver: Event, platform: Platform)
    requires IsInput(u) && 0 < ts <= MAX_INT64
    requires u.EncoderUpdate? ==> -0x8000_0000 <= u.delta < 0x8000_0000
    ensures var posted := TranslateEvent(Normalize(u, deviceID, ts), clock);
            && posted.Some?
            && (ReadsAs(ReadBack(posted.value, receiver, platform), u, DeviceName(deviceID), ts, platform)
                <==> Survives(ts, platform))
  {
    hide Survives, ToButtonPayload, ToSwitchPayload, ToEncoderPayload, ReadBack, NewButtonEvent, NewSwitchEvent,
      NewEncoderEvent;
    var device := DeviceName(deviceID);
    match u {
      case ButtonUpdate(b, a) =>
        BuiltButtonRoundTrips(device, ButtonText(MapButton(b)), ActionText(MapButtonAction(a)), ts, clock, receiver,
                              platform);
      case SwitchUpdate(p) =>
        BuiltSwitchRoundTrips(device, PositionText(MapSwitchPosition(p)), ts, clock, receiver, platform);
      case EncoderUpdate(d) =>
        BuiltEncoderRoundTrips(device, d, ts, clock, receiver, platform);
    }
  }

  /** So does the object of the second serializer, for every non-empty device ID. */
  lemma SerializedEventsRoundTrip(u: Update, deviceID: string, ts: int, receiver: Event, platform: Platform)
    requires IsInput(u) && deviceID != "" && 0 < ts <= MAX_INT64
    requires u.EncoderUpdate? ==> -0x8000_0000 <= u.delta < 0x8000_0000
    ensures var back := Parsed(receiver, OverTheWire(ToHomeAssistantJSON(Normalize(u, deviceID, ts)).value), platform);
            ReadsAs(back, u, deviceID, ts, platform) <==> Survives(ts, platform)
  {
    hide Survives, ReadsAs, Parsed, OverTheWire, Fields;
    SerializersAgree(u, deviceID, ts, 0);
    DecodedEventsRoundTrip(u, deviceID, ts, 0, receiver, platform);
  }

  /** The timestamp of a decoded event is the message's when it is a positive int64, and the clock's otherwise. */
  lemma DecodedTimestampMeans(wire: nat, now: int)
    requires wire < 0x1_0000_0000_0000_0000
    ensures DecodedTimestamp(wire, now) == if 0 < wire <= MAX_INT64 then wire else now
  {
  }

  /** What is posted for an update, by the numbers on the wire. */
  lemma PostedFields(u: Update, deviceID: string, ts: int, clock: int)
    requires IsInput(u)
    ensures TranslateEvent(Normalize(u, deviceID, ts), clock).Some?
    ensures var f := Fields(TranslateEvent(Normalize(u, deviceID, ts), clock).value);
            && "device" in f && f["device"] == Str(if deviceID == "" then "busybar" else deviceID)
            && "timestamp" in f && f["timestamp"] == Int(if ts > 0 then ts else clock / 1_000_000_000)
            && "type" in f
            && match u
               case ButtonUpdate(b, a) =>
                 && f.Keys == {"device", "timestamp", "type", "button", "action"} && f["type"] == Str("button")
                 && (b == 0 ==> f["button"] == Str("ok")) && (b == 1 ==> f["button"] == Str("back"))
                 && (b == 2 ==> f["button"] == Str("start"))
                 && (b < 0 || b > 2 ==> f["button"] == Str("unknown"))
                 && (a == 0 ==> f["action"] == Str("press")) && (a == 1 ==> f["action"] == Str("release"))
                 && (a < 0 || a > 1 ==> f["action"] == Str("unknown"))
               case SwitchUpdate(p) =>
                 && f.Keys == {"device", "timestamp", "type", "position"} && f["type"] == Str("switch")
                 && (p == 0 ==> f["position"] == Str("busy")) && (p == 1 ==> f["position"] == Str("custom"))
                 && (p == 2 ==> f["position"] == Str("off")) && (p == 3 ==> f["position"] == Str("apps"))
                 && (p == 4 ==> f["position"] == Str("settings"))
                 && (p < 0 || p > 4 ==> f["position"] == Str("unknown"))
               case EncoderUpdate(d) =>
                 && f.Keys == {"device", "timestamp", "type", "delta"} && f["type"] == Str("encoder")
                 && f["delta"] == Int(d)
               case _ => true
  {
    KeysAreDistinct();
    assert "button"[0] != "action"[0];
  }
}
