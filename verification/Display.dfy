/** DisplayOrchestrator of internal/calendar/display.go: the two lines shown for an event, and which frames
    are pushed.  The idle date and time are a function of the instant. */
module Display {
  import opened Basics
  import opened Countdown
  import opened CalendarPoller
  import opened Renderer
  import opened PushMailbox
  import PushClient

  const FALLBACK_TITLE := "Busy"

  /** localNow.Format("Mon Jan 02") and localNow.Format("15:04"). */
  type IdleLines = int -> (string, string)

  function TruncateTitle(summary: string, maxChars: int): string {
    if maxChars <= 0 then ""
    else
      var trimmed := TrimSpace(summary);
      var title := if trimmed == "" then FALLBACK_TITLE else trimmed;
      if |title| > maxChars then title[..maxChars] else title
  }

  function FormatDisplayState(ev: ActiveEvent, now: int, idleLines: IdleLines): DisplayState {
    if ev.idle then DisplayState(Idle, idleLines(now).0, idleLines(now).1, now)
    else
      var trimmed := TrimSpace(ev.countdown);
      var countdown := if trimmed == "" then FormatCountdown(TimeSub(ev.end, now)) else trimmed;
      DisplayState(Busy, TruncateTitle(ev.summary, MAX_CHARS),
                   if |countdown| > MAX_CHARS then countdown[..MAX_CHARS] else countdown, now)
  }

  lemma {:induction false} TrimLeftEnds(s: string)
    ensures TrimLeft(s) != [] ==> !IsSpace(TrimLeft(s)[0])
    ensures exists k :: 0 <= k <= |s| && TrimLeft(s) == s[k..]
  {
    if s != [] && IsSpace(s[0]) {
      TrimLeftEnds(s[1..]);
      var k :| 0 <= k <= |s[1..]| && TrimLeft(s[1..]) == s[1..][k..];
      assert s[1..][k..] == s[k + 1..];
    } else {
      assert s == s[0..];
    }
  }

  lemma {:induction false} TrimRightIsPrefix(s: string)
    ensures TrimRight(s) <= s
  {
    if s != [] && IsSpace(s[|s| - 1]) {
      TrimRightIsPrefix(s[..|s| - 1]);
    }
  }

  /** A title always shows something, starting with a visible character, and fits. */
  lemma TitleIsVisible(summary: string, maxChars: int)
    requires maxChars >= 1
    ensures var title := TruncateTitle(summary, maxChars);
            && 1 <= |title| <= maxChars
            && !IsSpace(title[0])
            && (TrimSpace(summary) != "" ==>
                  title <= TrimSpace(summary) && |title| == Min(maxChars, |TrimSpace(summary)|))
            && (TrimSpace(summary) == "" ==> title <= "Busy" && |title| == Min(maxChars, 4))
  {
    TrimLeftEnds(summary);
    TrimRightIsPrefix(TrimLeft(summary));
    assert !IsSpace(FALLBACK_TITLE[0]);
    hide TrimLeft, TrimRight, IsSpace;
  }

  /** What is shown for an event the poller reports at `t`: a title that fits, and exactly the countdown from `t`
      to its end, uncut, which reads back as the minutes left exactly when the event ends within LAST_EXACT, some
      292 years. */
  lemma BusyScreen(cached: ActiveEvent, t: int, now: int, idleLines: IdleLines)
    ensures !CurrentEvent(cached, t).idle ==>
              var s := FormatDisplayState(CurrentEvent(cached, t), now, idleLines);
              && s.mode == Busy
              && 1 <= |s.topLine| <= MAX_CHARS
              && s.bottomLine == FormatCountdown(TimeSub(cached.end, t))
              && (ParseClock(s.bottomLine) == Some(CeilMinutes(cached.end - t)) <==> cached.end - t <= LAST_EXACT)
  {
    var d := TimeSub(cached.end, t);
    hide FormatCountdown, ParseClock, CeilMinutes, TruncateTitle;
    CountdownFits(d);
    CountdownIsNotTrimmed(d);
    TitleIsVisible(cached.summary, MAX_CHARS);
    if !CurrentEvent(cached, t).idle {
      CountdownReadsBack(d);
      OverflowDoesNotRead(d);
    }
  }

  /** The two lines, in the fields of the event: the instant's own when it is idle; else the title, and the event's
      countdown trimmed, or one reckoned from its end when that is blank, both cut to fourteen runes. */
  lemma ScreenMeans(ev: ActiveEvent, now: int, idleLines: IdleLines)
    ensures var s := FormatDisplayState(ev, now, idleLines);
            && s.updatedAt == now
            && (ev.idle ==> s.mode == Idle && (s.topLine, s.bottomLine) == idleLines(now))
            && (!ev.idle ==>
                  var text := if AllSpace(ev.countdown) then FormatCountdown(TimeSub(ev.end, now))
                              else TrimSpace(ev.countdown);
                  var title := if AllSpace(ev.summary) then "Busy" else TrimSpace(ev.summary);
                  && s.mode == Busy
                  && s.topLine <= title && |s.topLine| == Min(14, |title|)
                  && s.bottomLine <= text && |s.bottomLine| == Min(14, |text|))
  {
    hide TrimSpace, AllSpace, FormatCountdown, TimeSub;
    BlankIsAllSpace(ev.countdown);
    BlankIsAllSpace(ev.summary);
  }

  // ---- Pushing ----

  /** The orchestrator's fields, and the payloads its push client has accepted. */
  datatype Memory = Memory(lastState: DisplayState, lastPushAt: int, hasPushed: bool, accepted: seq<seq<byte>>)

  predicate NeedsPush(m: Memory, state: DisplayState, now: int, keepAlive: int) {
    || !m.hasPushed
    || state.mode != m.lastState.mode
    || state.topLine != m.lastState.topLine
    || state.bottomLine != m.lastState.bottomLine
    || TimeSub(now, m.lastPushAt) >= keepAlive
  }

  /** One evaluation: what to show, when, and whether the push client would refuse a frame. */
  datatype Tick = Tick(state: DisplayState, now: int, refused: bool)

  predicate Fails(m: Memory, t: Tick, keepAlive: int) {
    NeedsPush(m, t.state, t.now, keepAlive) && t.refused
  }

  function After(m: Memory, t: Tick, keepAlive: int): Memory {
    if !NeedsPush(m, t.state, t.now, keepAlive) || t.refused then m
    else Memory(t.state, t.now, true, m.accepted + [FrameBytes(t.state)])
  }

  function Ticked(first: DisplayState, ticks: seq<Tick>, keepAlive: int): Memory {
    if ticks == [] then Memory(first, 0, false, [])
    else After(Ticked(first, ticks[..|ticks| - 1], keepAlive), ticks[|ticks| - 1], keepAlive)
  }

  ghost predicate Faithful(m: Memory) {
    m.hasPushed ==> m.accepted != [] && m.accepted[|m.accepted| - 1] == FrameBytes(m.lastState)
  }

  /** The invariant, and what a tick that does not fail establishes. */
  lemma TickIsSound(m: Memory, t: Tick, keepAlive: int)
    requires Faithful(m) && 0 < keepAlive <= MAX_INT64
    ensures Faithful(After(m, t, keepAlive))
    ensures !Fails(m, t, keepAlive) ==>
              var m' := After(m, t, keepAlive);
              && m'.accepted != [] && m'.accepted[|m'.accepted| - 1] == FrameBytes(t.state)
              && t.now - m'.lastPushAt < keepAlive
  {
    if !NeedsPush(m, t.state, t.now, keepAlive) {
      UpdateTimeIsNotRendered(t.state, m.lastState);
    }
    hide FrameBytes;
  }

  /** Suppressing a push never leaves a stale screen: in every run, after every evaluation that does not fail,
      the last frame the push client accepted is the rendering of what should be shown, pushed now or not, and
      it was pushed less than a keep-alive interval ago. */
  lemma {:induction false} SuppressionIsSound(first: DisplayState, ticks: seq<Tick>, keepAlive: int)
    requires 0 < keepAlive <= MAX_INT64
    ensures var m := Ticked(first, ticks, keepAlive);
            && Faithful(m)
            && (ticks != [] ==>
                  var t := ticks[|ticks| - 1];
                  !Fails(Ticked(first, ticks[..|ticks| - 1], keepAlive), t, keepAlive) ==>
                    && m.accepted != [] && m.accepted[|m.accepted| - 1] == FrameBytes(t.state)
                    && t.now - m.lastPushAt < keepAlive)
  {
    hide FrameBytes, NeedsPush;
    if ticks != [] {
      SuppressionIsSound(first, ticks[..|ticks| - 1], keepAlive);
      TickIsSound(Ticked(first, ticks[..|ticks| - 1], keepAlive), ticks[|ticks| - 1], keepAlive);
    }
  }

  /** A failed push leaves no trace, and the same screen is tried again at the next evaluation, however much
      later; it is then accepted unless it is refused again. */
  lemma FailedPushIsRetried(m: Memory, t: Tick, later: Tick, keepAlive: int)
    requires Fails(m, t, keepAlive) && later.now >= t.now
    requires later.state.mode == t.state.mode && later.state.topLine == t.state.topLine
             && later.state.bottomLine == t.state.bottomLine
    ensures After(m, t, keepAlive) == m
    ensures if later.refused then Fails(After(m, t, keepAlive), later, keepAlive)
            else After(After(m, t, keepAlive), later, keepAlive).accepted == m.accepted + [FrameBytes(t.state)]
  {
    UpdateTimeIsNotRendered(t.state, later.state);
    hide FrameBytes;
  }

  /** A frame is pushed exactly when none was yet, the mode or a line differs from the last one pushed, or the
      keep-alive interval is over; it is accepted unless the client refuses it. */
  lemma PushesIff(m: Memory, t: Tick, keepAlive: int)
    requires 0 < keepAlive <= MAX_INT64
    ensures var due := || !m.hasPushed
                       || (t.state.mode, t.state.topLine, t.state.bottomLine)
                          != (m.lastState.mode, m.lastState.topLine, m.lastState.bottomLine)
                       || t.now >= m.lastPushAt + keepAlive;
            var after := After(m, t, keepAlive);
            && (Fails(m, t, keepAlive) <==> due && t.refused)
            && (due && !t.refused ==>
                  after.hasPushed && after.lastState == t.state && after.lastPushAt == t.now
                  && after.accepted == m.accepted + [FrameBytes(t.state)])
            && (!due || t.refused ==> after == m)
  {
    hide FrameBytes;
  }

  // ---- The orchestrator in the source's form ----

  function Payloads(frames: seq<Frame>): seq<seq<byte>> {
    seq(|frames|, i requires 0 <= i < |frames| => frames[i].data)
  }

  lemma PayloadsGrow(frames: seq<Frame>, last: Frame)
    ensures Payloads(frames + [last]) == Payloads(frames) + [last.data]
  {
  }

  lemma LastPayload(frames: seq<Frame>)
    ensures |Payloads(frames)| == |frames|
    ensures frames != [] ==> Payloads(frames)[|frames| - 1] == frames[|frames| - 1].data
  {
  }

  class Orchestrator {
    const enabled: bool
    const hasTracker: bool
    const pushClient: PushClient.Client?
    const keepAlive: int
    const idleLines: IdleLines
    var lastState: DisplayState
    var lastPushAt: int
    var hasPushed: bool

    ghost function View(): Memory
      requires pushClient != null
      reads this, pushClient
    {
      Memory(lastState, lastPushAt, hasPushed, Payloads(pushClient.accepted))
    }

    ghost predicate Valid()
      reads this, pushClient, if pushClient == null then {} else {pushClient.store}
    {
      && 0 < keepAlive <= MAX_INT64
      && (pushClient != null ==> pushClient.Valid() && (pushClient.enabled ==> Faithful(View())))
    }

    constructor (enabled: bool, hasTracker: bool, pushClient: PushClient.Client?, keepAlive: int, idleLines: IdleLines)
      requires keepAlive <= MAX_INT64
      requires pushClient != null ==> pushClient.Valid()
      ensures Valid() && !hasPushed && this.enabled == enabled && this.hasTracker == hasTracker
      ensures this.pushClient == pushClient && this.idleLines == idleLines
      ensures this.keepAlive == if keepAlive <= 0 then 30_000_000_000 else keepAlive
    {
      this.enabled, this.hasTracker, this.pushClient, this.idleLines := enabled, hasTracker, pushClient, idleLines;
      this.keepAlive := if keepAlive <= 0 then 30_000_000_000 else keepAlive;
      lastState := DisplayState(Idle, "", "", 0);
      lastPushAt := 0;
      hasPushed := false;
    }

    /** Step, with what the tracker and the clock answer.  With every part present and the push client enabled
        it is one tick of the model above; a disabled client accepts nothing. */
    method Step(ev: ActiveEvent, now: int) returns (err: Option<PushClient.PushError>)
      requires Valid()
      modifies this, pushClient, if pushClient == null then {} else {pushClient.store}
      ensures Valid()
      ensures !enabled || !hasTracker || pushClient == null ==>
        err == None && unchanged(this) && (pushClient != null ==> unchanged(pushClient))
      ensures enabled && hasTracker && pushClient != null && pushClient.enabled ==>
        var t := Tick(FormatDisplayState(ev, now, idleLines), now, pushClient.closed);
        && View() == After(old(View()), t, keepAlive)
        && err == (if Fails(old(View()), t, keepAlive) then Some(PushClient.ErrClientClosed) else None)
        && (err == None ==>
              && pushClient.accepted != []
              && pushClient.accepted[|pushClient.accepted| - 1].data
                 == FrameBytes(FormatDisplayState(ev, now, idleLines))
              && now - lastPushAt < keepAlive)
      ensures pushClient != null && !pushClient.enabled ==>
        err == None && pushClient.accepted == old(pushClient.accepted)
    {
      hide FrameBytes, FormatDisplayState, Telemetry.Apply, TimeSub, Faithful, Payloads;
      if !enabled || !hasTracker || pushClient == null {
        return None;
      }
      var state := FormatDisplayState(ev, now, idleLines);
      ghost var t := Tick(state, now, pushClient.closed);
      if pushClient.enabled {
        TickIsSound(View(), t, keepAlive);
      }
      var needPush := !hasPushed || state.mode != lastState.mode || state.topLine != lastState.topLine
                      || state.bottomLine != lastState.bottomLine || TimeSub(now, lastPushAt) >= keepAlive;
      if !needPush {
        LastPayload(pushClient.accepted);
        return None;
      }
      var buf := RenderFrame(state);
      var frame := Frame(PushClient.SCREEN_FRONT, buf[..]);
      PayloadsGrow(pushClient.accepted, frame);
      err := pushClient.PushFrame(Some(frame));
      if err.Some? {
        return;
      }
      LastPayload(pushClient.accepted);
      lastState := state;
      lastPushAt := now;
      hasPushed := true;
    }
  }
}
