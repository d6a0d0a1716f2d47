/** internal/hass/event.go: the event forwarded to Home Assistant, its flat JSON object and
    its typed payloads.  A JSON object is a map from keys to values; decoding one turns every
    number into a float64. */
module HassEvent {
  import opened Basics
  import opened Float64

  datatype Value = Str(text: string) | Int(n: int) | Float(r: real) | Bool(b: bool)

  /** `parsedID` is what strconv.ParseInt makes of a non-empty ID. */
  datatype Event = Event(parsedID: Option<int>, device: string, kind: string, timestamp: int,
                         createdAt: Option<int>, data: map<string, Value>, traceID: int)

  datatype ButtonPayload = ButtonPayload(device: string, button: string, action: string, timestamp: int)
  datatype SwitchPayload = SwitchPayload(device: string, position: string, timestamp: int)
  datatype EncoderPayload = EncoderPayload(device: string, delta: int, timestamp: int)

  function NewButtonEvent(device: string, button: string, action: string, ts: int, now: int): Event {
    Event(None, device, "button", ts, Some(now), map["button" := Str(button), "action" := Str(action)], 0)
  }

  function NewSwitchEvent(device: string, position: string, ts: int, now: int): Event {
    Event(None, device, "switch", ts, Some(now), map["position" := Str(position)], 0)
  }

  function NewEncoderEvent(device: string, delta: int, ts: int, now: int): Event {
    Event(None, device, "encoder", ts, Some(now), map["delta" := Int(delta)], 0)
  }

  // ---- JSON ----

  /** The object Event.MarshalJSON writes: Data first, then the standard fields over it. */
  function Fields(e: Event): map<string, Value> {
    e.data["device" := Str(e.device)]["type" := Str(e.kind)]["timestamp" := Int(e.timestamp)]
  }

  method MarshalJSON(e: Event) returns (out: map<string, Value>)
    ensures out == Fields(e)
  {
    out := map[];
    var rest := e.data.Keys;
    while rest != {}
      invariant rest <= e.data.Keys
      invariant out == map k | k in e.data && k !in rest :: e.data[k]
      decreases rest
    {
      var k :| k in rest;
      out := out[k := e.data[k]];
      rest := rest - {k};
    }
    assert out == e.data;
    out := out["device" := Str(e.device)];
    out := out["type" := Str(e.kind)];
    out := out["timestamp" := Int(e.timestamp)];
  }

  /** json.Unmarshal into interface{}: every number arrives as a float64. */
  function Decoded(v: Value): Value {
    match v
    case Int(n) => Float(ToFloat64(n) as real)
    case _ => v
  }

  function OverTheWire(fields: map<string, Value>): map<string, Value> {
    map k | k in fields :: Decoded(fields[k])
  }

  method UnmarshalJSON(e: Event, fields: map<string, Value>, platform: Platform) returns (r: Event)
    ensures r == Parsed(e, fields, platform)
  {
    var raw := fields;
    r := e;
    if "device" in raw && raw["device"].Str? {
      r := r.(device := raw["device"].text);
      raw := raw - {"device"};
    }
    if "type" in raw && raw["type"].Str? {
      r := r.(kind := raw["type"].text);
      raw := raw - {"type"};
    }
    if "timestamp" in raw {
      if raw["timestamp"].Float? {
        r := r.(timestamp := ToInt64(raw["timestamp"].r, platform));
      } else if raw["timestamp"].Int? {
        r := r.(timestamp := raw["timestamp"].n);
      }
      raw := raw - {"timestamp"};
    }
    r := r.(data := raw);
    KeysAreDistinct();
  }

  /** What UnmarshalJSON leaves in the receiver: a standard field is taken and removed from the
      object when it has the expected type (the timestamp is removed whatever its type). */
  function Parsed(e: Event, fields: map<string, Value>, platform: Platform): Event {
    var hasDevice := "device" in fields && fields["device"].Str?;
    var hasType := "type" in fields && fields["type"].Str?;
    var hasTimestamp := "timestamp" in fields;
    e.(device := if hasDevice then fields["device"].text else e.device,
       kind := if hasType then fields["type"].text else e.kind,
       timestamp := if hasTimestamp && fields["timestamp"].Float? then ToInt64(fields["timestamp"].r, platform)
                    else if hasTimestamp && fields["timestamp"].Int? then fields["timestamp"].n
                    else e.timestamp,
       data := fields - (if hasDevice then {"device"} else {})
                      - (if hasType then {"type"} else {}) - {"timestamp"})
  }

  function TextAt(data: map<string, Value>, key: string): string {
    if key in data && data[key].Str? then data[key].text else ""
  }

  function ToButtonPayload(e: Event): Option<ButtonPayload> {
    var button, action := TextAt(e.data, "button"), TextAt(e.data, "action");
    if e.kind != "button" || button == "" || action == "" then None
    else Some(ButtonPayload(e.device, button, action, e.timestamp))
  }

  function ToSwitchPayload(e: Event): Option<SwitchPayload> {
    var position := TextAt(e.data, "position");
    if e.kind != "switch" || position == "" then None
    else Some(SwitchPayload(e.device, position, e.timestamp))
  }

  function ToEncoderPayload(e: Event, platform: Platform): Option<EncoderPayload> {
    if e.kind != "encoder" || "delta" !in e.data then None
    else
      match e.data["delta"]
      case Int(n) => Some(EncoderPayload(e.device, n, e.timestamp))
      case Float(r) => Some(EncoderPayload(e.device, ToInt64(r, platform), e.timestamp))
      case _ => None
  }

  predicate IsStandard(key: string) {
    key in {"device", "type", "timestamp"}
  }

  lemma KeysAreDistinct()
    ensures "device" != "type" && "device" != "timestamp" && "type" != "timestamp"
    ensures !IsStandard("button") && !IsStandard("action") && !IsStandard("position") && !IsStandard("delta")
  {
    assert "device"[0] == 'd' && "button"[0] == 'b' && "action"[0] == 'a' && |"delta"| == 5 && |"position"| == 8;
    assert |"type"| == 4 && |"timestamp"| == 9;
  }

  /** Writing an event and reading it back into any receiver. */
  function ReadBack(e: Event, receiver: Event, platform: Platform): Event {
    Parsed(receiver, OverTheWire(Fields(e)), platform)
  }

  lemma StandardFieldsSurvive(e: Event, receiver: Event, platform: Platform)
    ensures var r := ReadBack(e, receiver, platform);
            && r.device == e.device && r.kind == e.kind
            && r.timestamp == Through(e.timestamp, platform)
            && r.data == OverTheWire(e.data) - {"device", "type", "timestamp"}
  {
    hide ToFloat64, ToInt64;
    KeysAreDistinct();
    var wire := OverTheWire(Fields(e));
    assert wire["device"] == Str(e.device) && wire["type"] == Str(e.kind);
    assert wire["timestamp"] == Float(ToFloat64(e.timestamp) as real);
  }

  lemma TextSurvives(e: Event, receiver: Event, platform: Platform, key: string)
    requires !IsStandard(key)
    ensures TextAt(ReadBack(e, receiver, platform).data, key) == TextAt(e.data, key)
  {
    hide ToFloat64, ToInt64;
    StandardFieldsSurvive(e, receiver, platform);
  }

  /** A typed payload is read back, or refused, as it was written, with its timestamp rounded through float64. */
  lemma TextPayloadsSurvive(e: Event, receiver: Event, platform: Platform)
    ensures ToButtonPayload(ReadBack(e, receiver, platform)) ==
              (match ToButtonPayload(e)
               case None => None
               case Some(p) => Some(p.(timestamp := Through(p.timestamp, platform))))
    ensures ToSwitchPayload(ReadBack(e, receiver, platform)) ==
              (match ToSwitchPayload(e)
               case None => None
               case Some(p) => Some(p.(timestamp := Through(p.timestamp, platform))))
  {
    hide Through, ReadBack, TextAt;
    KeysAreDistinct();
    StandardFieldsSurvive(e, receiver, platform);
    TextSurvives(e, receiver, platform, "button");
    TextSurvives(e, receiver, platform, "action");
    TextSurvives(e, receiver, platform, "position");
  }

  /** So is the encoder payload, an integer delta being rounded too. */
  lemma EncoderPayloadSurvives(e: Event, receiver: Event, platform: Platform)
    ensures ToEncoderPayload(ReadBack(e, receiver, platform), platform) ==
              (match ToEncoderPayload(e, platform)
               case None => None
               case Some(p) => Some(p.(delta := if e.data["delta"].Int? then Through(p.delta, platform) else p.delta,
                                       timestamp := Through(p.timestamp, platform))))
  {
    hide ToFloat64, ToInt64, ReadBack;
    KeysAreDistinct();
    StandardFieldsSurvive(e, receiver, platform);
    var data := ReadBack(e, receiver, platform).data;
    assert "delta" in data <==> "delta" in e.data;
    if "delta" in e.data {
      assert data["delta"] == Decoded(e.data["delta"]);
    }
  }

  /** Reading back leaves an int64 as it was. */
  predicate Survives(n: int, platform: Platform) {
    ExactInFloat64(n) || (n >= TWO_TO_63 - 512 && platform(TWO_TO_63 as real) == n)
  }

  /** The typed payload of an event the bridge builds is read back unchanged exactly when its timestamp is exact in
      float64, or overflows and the platform gives the same back (an encoder delta is an int32, always exact). */
  lemma BuiltButtonRoundTrips(device: string, button: string, action: string, ts: int, now: int, receiver: Event,
                              platform: Platform)
    requires button != "" && action != "" && IsInt64(ts)
    ensures (ToButtonPayload(ReadBack(NewButtonEvent(device, button, action, ts, now), receiver, platform))
              == Some(ButtonPayload(device, button, action, ts)))
            <==> Survives(ts, platform)
  {
    hide Through, ReadBack, ExactInFloat64;
    ThroughIsExactIff(ts, platform);
    assert "button"[0] != "action"[0];
    TextPayloadsSurvive(NewButtonEvent(device, button, action, ts, now), receiver, platform);
  }

  lemma BuiltSwitchRoundTrips(device: string, position: string, ts: int, now: int, receiver: Event, platform: Platform)
    requires position != "" && IsInt64(ts)
    ensures (ToSwitchPayload(ReadBack(NewSwitchEvent(device, position, ts, now), receiver, platform))
              == Some(SwitchPayload(device, position, ts)))
            <==> Survives(ts, platform)
  {
    hide Through, ReadBack, ExactInFloat64;
    ThroughIsExactIff(ts, platform);
    TextPayloadsSurvive(NewSwitchEvent(device, position, ts, now), receiver, platform);
  }

  lemma BuiltEncoderRoundTrips(device: string, delta: int, ts: int, now: int, receiver: Event, platform: Platform)
    requires -0x8000_0000 <= delta < 0x8000_0000 && IsInt64(ts)
    ensures (ToEncoderPayload(ReadBack(NewEncoderEvent(device, delta, ts, now), receiver, platform), platform)
              == Some(EncoderPayload(device, delta, ts)))
            <==> Survives(ts, platform)
  {
    hide Through, ReadBack, ExactInFloat64;
    ThroughIsExactIff(ts, platform);
    ThroughIsExactIff(delta, platform);
    Float64Exactness(delta);
    EncoderPayloadSurvives(NewEncoderEvent(device, delta, ts, now), receiver, platform);
  }

  /** Fields of the wrong type: the receiver keeps its own and the object keeps the field, but the timestamp is taken
      out whatever it is. */
  lemma OddFieldsAreLeft(e: Event, fields: map<string, Value>, platform: Platform)
    ensures var r := Parsed(e, fields, platform);
            && ("device" !in fields || !fields["device"].Str? ==> r.device == e.device)
            && ("device" in fields && !fields["device"].Str? ==> "device" in r.data)
            && ("type" !in fields || !fields["type"].Str? ==> r.kind == e.kind)
            && ("type" in fields && !fields["type"].Str? ==> "type" in r.data)
            && ("timestamp" !in fields || fields["timestamp"].Str? || fields["timestamp"].Bool? ==>
                  r.timestamp == e.timestamp)
            && "timestamp" !in r.data
            && (forall k :: k in r.data ==> k in fields && r.data[k] == fields[k])
            && (forall k :: k in fields && !IsStandard(k) ==> k in r.data)
            && r.traceID == e.traceID && r.createdAt == e.createdAt && r.parsedID == e.parsedID
  {
    KeysAreDistinct();
  }

  /** A typed payload is refused unless the event is of its type and carries its fields. */
  lemma PayloadsAreGiven(e: Event, platform: Platform)
    ensures ToButtonPayload(e).Some? <==>
              && e.kind == "button"
              && (exists b :: b != "" && "button" in e.data && e.data["button"] == Str(b))
              && (exists a :: a != "" && "action" in e.data && e.data["action"] == Str(a))
    ensures ToSwitchPayload(e).Some? <==>
              e.kind == "switch" && exists p :: p != "" && "position" in e.data && e.data["position"] == Str(p)
    ensures ToEncoderPayload(e, platform).Some? <==>
              e.kind == "encoder" && "delta" in e.data && (e.data["delta"].Int? || e.data["delta"].Float?)
  {
    if "button" in e.data && e.data["button"].Str? {
      assert e.data["button"] == Str(e.data["button"].text);
    }
    if "action" in e.data && e.data["action"].Str? {
      assert e.data["action"] == Str(e.data["action"].text);
    }
    if "position" in e.data && e.data["position"].Str? {
      assert e.data["position"] == Str(e.data["position"].text);
    }
  }
}
