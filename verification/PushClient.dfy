/** internal/busybar/push.go: the push client object, each method run without interference; PushMailbox
    interleaves the same statements. */
module PushClient {
  import opened Basics
  import opened Telemetry
  import opened PushMailbox

  datatype PushError = ErrNilFrame | ErrEmptyData | ErrClientClosed

  const SCREEN_FRONT: nat := 0

  /** What the HTTP push comes to. */
  datatype PushOutcome = NotMarshalled | NotBuilt | NotAnswered | Answered(status: int)

  predicate Accepted(outcome: PushOutcome) {
    outcome.Answered? && outcome.status in {200, 204}
  }

  function PushFailure(outcome: PushOutcome): Option<Error> {
    match outcome
    case NotMarshalled => Some(MarshalFailed)
    case NotBuilt => Some(RequestFailed)
    case NotAnswered => Some(NetworkFailed)
    case Answered(status) => if Accepted(outcome) then None else Some(PermanentStatus(status))
  }

  /** A push succeeds with status 200 or 204 and no other answer, and every other end is an error of its own. */
  lemma OnlyOKAndNoContentSucceed(outcome: PushOutcome)
    ensures Accepted(outcome) <==> outcome == Answered(200) || outcome == Answered(204)
    ensures PushFailure(outcome) == None <==> outcome == Answered(200) || outcome == Answered(204)
    ensures outcome.Answered? && !Accepted(outcome) ==> PushFailure(outcome) == Some(PermanentStatus(outcome.status))
    ensures PushFailure(NotMarshalled) == Some(MarshalFailed) && PushFailure(NotBuilt) == Some(RequestFailed)
    ensures PushFailure(NotAnswered) == Some(NetworkFailed)
  {
  }

  /** A frame with no screen goes to the default one, or else to the front.  The front is number 0, so a frame
      addressed to it reaches it only if it is the default. */
  function Screened(frame: Frame, defaultScreen: nat): (sent: Frame)
    ensures sent.data == frame.data
    ensures frame.screen != 0 ==> sent.screen == frame.screen
    ensures frame.screen == 0 ==> sent.screen == defaultScreen
    ensures sent.screen == SCREEN_FRONT <==> frame.screen == SCREEN_FRONT && defaultScreen == SCREEN_FRONT
  {
    if frame.screen != 0 then frame
    else if defaultScreen != 0 then frame.(screen := defaultScreen)
    else frame.(screen := SCREEN_FRONT)
  }

  /** `accepted` is history: every frame put into the mailbox. */
  class Client {
    const enabled: bool
    const defaultScreen: nat
    const store: Store
    var mailbox: Option<Frame>
    var closed: bool
    ghost var accepted: seq<Frame>

    ghost predicate Valid()
      reads this, store
    {
      && store.Valid()
      && (mailbox.Some? ==> accepted != [] && accepted[|accepted| - 1] == mailbox.value)
    }

    constructor (enabled: bool, defaultScreen: nat, store: Store)
      requires store.Valid()
      ensures Valid() && mailbox == None && !closed && accepted == []
      ensures this.enabled == enabled && this.defaultScreen == defaultScreen && this.store == store
    {
      this.enabled, this.defaultScreen, this.store := enabled, defaultScreen, store;
      mailbox, closed, accepted := None, false, [];
    }

    /** A disabled client accepts nothing and says nothing. */
    function Refusal(frame: Option<Frame>): Option<PushError>
      reads this
    {
      if !enabled then None
      else if frame.None? then Some(ErrNilFrame)
      else if frame.value.data == [] then Some(ErrEmptyData)
      else if closed then Some(ErrClientClosed)
      else None
    }

    method PushFrame(frame: Option<Frame>) returns (err: Option<PushError>)
      requires Valid()
      modifies `mailbox, `accepted, store
      ensures Valid() && err == Refusal(frame)
      ensures err == Some(ErrNilFrame) <==> enabled && frame == None
      ensures err == Some(ErrEmptyData) <==> enabled && frame.Some? && frame.value.data == []
      ensures err == Some(ErrClientClosed) <==> enabled && frame.Some? && frame.value.data != [] && closed
      ensures if enabled && err.None? then
                && mailbox == frame && accepted == old(accepted) + [frame.value]
                && store.View() == if old(mailbox).Some? then Apply(old(store.View()), RecordPushDrop)
                                   else old(store.View())
              else
                unchanged(`mailbox, `accepted) && store.View() == old(store.View())
    {
      if !enabled {
        return None;
      }
      if frame.None? {
        return Some(ErrNilFrame);
      }
      if frame.value.data == [] {
        return Some(ErrEmptyData);
      }
      if closed {
        return Some(ErrClientClosed);
      }
      if mailbox.Some? {
        mailbox := None;
        store.RecordPushDrop();
      }
      mailbox := frame;
      accepted := accepted + [frame.value];
      err := None;
    }

    /** One turn of the worker: the frame in the mailbox is sent and its result recorded. */
    method Transmit(outcome: PushOutcome, start: int, end: int) returns (sent: Frame)
      requires Valid() && enabled && mailbox.Some?
      modifies `mailbox, store
      ensures Valid() && mailbox == None
      ensures sent == Screened(old(mailbox).value, defaultScreen)
      ensures store.View() == Apply(Apply(old(store.View()), RecordPushAttempt),
                                    RecordPushResult(Accepted(outcome), end, end - start, PushFailure(outcome)))
    {
      hide Apply;
      var frame := mailbox.value;
      mailbox := None;
      store.RecordPushAttempt();
      sent := frame;
      if sent.screen == 0 {
        if defaultScreen != 0 {
          sent := sent.(screen := defaultScreen);
        } else {
          sent := sent.(screen := SCREEN_FRONT);
        }
      }
      var latency := end - start;
      match outcome {
        case NotMarshalled => store.RecordPushResult(false, end, latency, Some(MarshalFailed));
        case NotBuilt => store.RecordPushResult(false, end, latency, Some(RequestFailed));
        case NotAnswered => store.RecordPushResult(false, end, latency, Some(NetworkFailed));
        case Answered(status) =>
          if status == 200 || status == 204 {
            store.RecordPushResult(true, end, latency, None);
          } else {
            store.RecordPushResult(false, end, latency, Some(PermanentStatus(status)));
          }
      }
    }
  }

  /** Six steps of one goroutine with nobody in between: what PushFrame alone makes of the machine is what
      Client.PushFrame promises. */
  lemma PushFrameAlone(s: State, p: nat, frame: Frame)
    requires Inv(s) && s.holder.Nobody? && frame.data != [] && !s.closed
    ensures 1 <= s.store.capacity
    ensures var t := Do(Do(Do(Do(Do(Do(s, Lock(p, frame)), Check(p)), Offer(p)), Evict(p)), Report(p)), Send(p));
            && t.holder.Nobody? && t.slot == Some(frame) && t.accepted == s.accepted + [frame]
            && t.store == if s.slot.Some? then Apply(s.store, Call.RecordPushDrop) else s.store
  {
    hide Inv, Apply, Fated;
    Room(s);
  }

  lemma Room(s: State)
    requires Inv(s)
    ensures 1 <= s.store.capacity
  {
  }

  /** The worker's three steps with nobody in between: what one transmission alone makes of the machine is what
      Client.Transmit promises. */
  lemma TransmitAlone(s: State, outcome: PushOutcome, start: int, end: int)
    requires 1 <= s.store.capacity && s.worker.Selecting? && s.slot.Some?
    ensures var result := WorkerResult(Accepted(outcome), end, end - start, PushFailure(outcome));
            var t := Do(Do(Do(s, WorkerTake), WorkerAttempt), result);
            && t.worker.Selecting? && t.slot.None? && t.transmitted == s.transmitted + [s.slot.value]
            && t.store == Apply(Apply(s.store, Call.RecordPushAttempt),
                                Call.RecordPushResult(Accepted(outcome), end, end - start, PushFailure(outcome)))
  {
    hide Apply, Fated;
  }
}
