# busybar-bridge, verified

A Dafny model of the bridge daemon between a BusyBar, Home Assistant and Google Calendar, with proofs of what its
small concurrent protocols keep, what its loops compute, and what its screen shows. `dafny verify dfyconfig.toml`
checks all of it.

The clock, the network and the disk are oracles: parameters that may hold any value the real ones could give. Each
concurrent protocol is a transition system whose steps are the single effects other goroutines can observe, and its
theorems range over every sequence of steps. The objects that the program updates in place are classes, their loops
are loops, and every such method is proved equal to a specification function about which the theorems are then
proved; the "Alone" lemmas say that a method run without interference is a run of its transition system.

| module | models |
|---|---|
| Basics | optional values, 64-bit durations, truncating division, package strings |
| Telemetry | the ledger: counters and the ring of event traces |
| Float64, HassEvent, EventTranslation | integers through float64; decoding, translation and the two serializers |
| HassDispatch | the retry and time-to-live loop |
| DeliverySystem, HassClient, Runner | the event path: the transition system, the client object, handleFrame |
| PushMailbox, PushClient | the single-slot push mailbox: the transition system, the client object |
| Font, Renderer, Display | the pixel renderer and the display orchestrator |
| Countdown, CalendarPoller | the countdown text, event selection, outages |
| Reconnect, FrameChannel | the reconnection loop; the life of the frame channel through shutdown |
| BindingStore, OAuthCallback | the write-once binding file and the callbacks that compete to write it |

## What the proofs found

- Dropped and abandoned events stay "pending" in the ring for as long as they are retained (DeliverySystem.RingTellsTheTruth).
- The event ledger balances on one snapshot only while the runner and the client share a store
  (DeliverySystem.OneStoreLawHoldsIff, DeliverySystem.SeparateStoresBreakTheLaw).
- The most recently accepted frame is in the mailbox or taken by the worker, except exactly between its eviction and
  the send of its successor (PushMailbox.LatestFrameWins; PushMailbox.LatestFrameCanBeEvicted reaches that state).
- The front screen is number 0, so a frame addressed to it goes to the default screen instead when that is another
  one (PushClient.Screened).
- A countdown within a minute of the largest int64 duration overflows and prints a minus sign
  (Countdown.CountdownReadsBack). Subtracting instants saturates there, so an event under way that ends more than some
  292 years from now shows it (Display.BusyScreen).
- A poll that fails at or after an event's end hides it from a reader whose clock lags behind, and nothing else about
  an outage is ever visible (CalendarPoller.OutagesAreVisibleIff).
- An int64 timestamp comes back from JSON unchanged exactly when it is a float64 (HassEvent.BuiltButtonRoundTrips); the
  512 largest round to 2^63, and what int64 makes of that is up to the platform (Float64.ThroughIsExactIff).
- The two serializers differ on an empty device ID and on a timestamp that is not positive
  (EventTranslation.SerializersAgree).
- A backoff product can leave int64, where the platform decides what it becomes; exactly the configurations of
  Reconnect.ProductsFitInt64Iff are safe from that.
- A multiplier slightly above one may never grow a small delay, because the product is truncated
  (Reconnect.MaxIsReachedIff).
- Start after a Close that has stopped waiting can panic on a closed channel, and only then (FrameChannel.StartPanicsIff,
  FrameChannel.StartCanComeTooLate).
- A Close of the BusyBar client that begins before Start and ends after it waits for as long as the reader runs
  (FrameChannel.CloseWaitEndsIff, FrameChannel.CloseBeforeStartCanWait).
- Without a binding store every OAuth callback that exchanges its code answers success=linked
  (OAuthCallback.OneLinkLawHoldsIff).
- The directory of the binding file is not synced, so a loss of power can forget a binding that was answered as
  linked; it can never tear the file (OAuthCallback.PowerFailureKeepsBindingIff, OAuthCallback.LinkedBindingCanBeForgotten).
- The display code reserves six rows for a glyph, but no glyph uses the last one, so rows 6 and 14 are always black
  (Renderer.MarginsAreBlack).

## Model

| member | source | states |
|---|---|---|
| Basics.TimeSubIsNearest | internal/calendar/display.go:117-121 | the difference of two instants is the int64 nearest to the true one |
| Basics.Wrap64IsCongruent | internal/busybar/decoder.go:41-44 | an int64 result differs from the true one by a multiple of 2^64 only |
| Basics.TruncDivides | internal/calendar/poller.go:112-117 | division and remainder toward zero: what the two make up, and the remainder's size and sign |
| Basics.TrimSpaceTrims | internal/calendar/display.go:226-239 | trimming takes all the space off both ends and nothing else |
| Basics.BlankIsAllSpace | internal/server/server.go:528-551 | a text trims to nothing exactly when it is all space |
| Basics.ASCIISpaces | internal/server/server.go:528-551 | which ASCII characters are space |
| Basics.StringLessIsLexicographic | internal/calendar/poller.go:345 | strings are ordered by the first rune that differs, a proper prefix first |
| Basics.FoldIgnoresCase | internal/calendar/poller.go:379-403 | on ASCII text folding ignores exactly the case of letters |
| Basics.LowerHasNoCapitals | internal/telemetry/store.go:144 | on ASCII text lowering leaves no capital and the same text but for case |
| Telemetry.RingRefinesLog | internal/telemetry/store.go:136-195 | for every capacity and every sequence of calls the ring is the last min(n, capacity) entries of an unbounded log in which entry i holds ID i + 1, and nextID is the log's length |
| Telemetry.RingStaysValid | internal/telemetry/store.go:136-170 | the ring's length and its contiguous IDs ending at nextID, after every sequence of calls |
| Telemetry.LogHoldsLatestOutcome | internal/telemetry/store.go:173-195 | the log entry of each ID holds the outcome last reported for it after it was issued |
| Telemetry.RingShowsLatestOutcomes | internal/telemetry/store.go:136-195 | every retained trace carries the latest outcome of its own ID, for every sequence of calls |
| Telemetry.NoOutcomeBeforeIssue | internal/telemetry/store.go:173-195 | an outcome reported before its ID was issued has no effect |
| Telemetry.OutcomeTouchesOnlyItsTrace | internal/telemetry/store.go:173-195 | an outcome for an evicted, unknown or zero ID moves counters and no trace; for a retained ID it changes that trace only |
| Telemetry.CountersBalance | internal/telemetry/store.go:136-195 | total events are the sum of the four kinds and the number recorded; dispatched is acked plus failed plus outcomes that are neither; calendar polls split into succeeded and failed |
| Telemetry.CountersCountKinds | internal/telemetry/store.go:144-153 | for every sequence of calls each counter is the number of events recorded under its names, whatever their case, and other is the rest |
| Telemetry.RecordedEventIsNewest | internal/telemetry/store.go:155-169 | a recorded event is the newest trace, pending, with its own type and summary; the oldest makes room only in a full ring |
| Telemetry.OutcomeIsRecorded | internal/telemetry/store.go:173-195 | acked or failed grows as the outcome says, and the trace takes outcome, whole milliseconds and, if there is one, the error |
| Telemetry.PushResultIsRecorded | internal/telemetry/store.go:244-260 | which counter grows, and when the last error is cleared, replaced or kept |
| Telemetry.CalendarPollIsRecorded | internal/telemetry/store.go:294-311 | the same for calendar polls, with the summary shown |
| Telemetry.Store.constructor | internal/telemetry/store.go:105-111 | an empty ledger with a ring of ten |
| Telemetry.Store.RecordEvent | internal/telemetry/store.go:136-170 | returns the next ID and moves the whole ledger as the specification of the log's window does |
| Telemetry.Store.RecordForwardOutcome | internal/telemetry/store.go:173-195 | the loop that stops at the first matching ID has the effect of settling every trace of that ID |
| Telemetry.Store.RecordDrop | internal/telemetry/store.go:271-275 | counts a drop and changes nothing else |
| Telemetry.Store.RecordPushAttempt | internal/telemetry/store.go:235-240 | counts an attempt and changes nothing else |
| Telemetry.Store.RecordPushResult | internal/telemetry/store.go:244-260 | a success clears the push error, a failure keeps the old one when it brings none |
| Telemetry.Store.RecordPushDrop | internal/telemetry/store.go:263-268 | counts an evicted frame and changes nothing else |
| Telemetry.Store.RecordCalendarPoll | internal/telemetry/store.go:294-311 | counts a poll as a success or a failure and sets the summary shown |
| Float64.Float64Exactness | internal/hass/event.go:189-199 | an integer survives float64 exactly when it is a multiple of the gap between its neighbours; all up to 2^53 do and 2^53 + 1 does not |
| Float64.RoundsToNearestEven | internal/hass/event.go:189-192 | the model's float64(n) is a float64, lies within half the gap of n, no float64 is nearer, and of two equally near ones it has the even mantissa |
| Float64.ThroughIsExactIff | internal/hass/event.go:189-199 | an int64 read back from JSON is its float64 below 2^63 - 512 and up to the platform from there; it is unchanged if and only if it is a float64, or the platform happens to give it |
| Float64.ToInt64Truncates | internal/hass/event.go:189-199 | a conversion to int64 drops the fraction toward zero |
| HassEvent.MarshalJSON | internal/hass/event.go:158-168 | the loop over Data in any order, then the standard fields, writes the object in which the standard fields win |
| HassEvent.UnmarshalJSON | internal/hass/event.go:172-207 | which keys are taken, by type, and which stay in Data, for any receiver and any object |
| HassEvent.OddFieldsAreLeft | internal/hass/event.go:172-207 | a field of the wrong type leaves the receiver's and stays in Data, except the timestamp, which is always taken out |
| HassEvent.PayloadsAreGiven | internal/hass/event.go:210-284 | a typed payload is given exactly for an event of its type with its fields |
| HassEvent.StandardFieldsSurvive | internal/hass/event.go:158-207 | an event written and read back into any receiver has its device and type, its timestamp as float64 rounds it and int64 converts it, and its Data without the standard keys |
| HassEvent.TextPayloadsSurvive | internal/hass/event.go:210-246 | a button or switch payload is read back, or refused, as it was written, its timestamp rounded |
| HassEvent.EncoderPayloadSurvives | internal/hass/event.go:249-284 | so is an encoder payload, whatever type its delta had |
| HassEvent.BuiltButtonRoundTrips | internal/hass/event.go:117-128 | a button event's payload reads back unchanged if and only if its timestamp is a float64, or overflows and the platform gives it back |
| HassEvent.BuiltSwitchRoundTrips | internal/hass/event.go:131-141 | the same for a switch event |
| HassEvent.BuiltEncoderRoundTrips | internal/hass/event.go:144-154 | the same for an encoder event, whose int32 delta is always exact |
| EventTranslation.Decode | internal/busybar/decoder.go:34-122 | a malformed payload is an error; otherwise one normalized event for each input update, in message order and with the message's or the clock's timestamp, and one success recorded for each |
| EventTranslation.InputPositionsComplete | internal/busybar/decoder.go:48-115 | the positions Decode keeps are exactly those of input updates, each once, in increasing order |
| EventTranslation.DecodedTimestampMeans | internal/busybar/decoder.go:41-44 | a decoded timestamp is the message's when that is a positive int64, else the clock's |
| EventTranslation.PostedFields | internal/runner/runner.go:301-389 | the posted object of every update, from the numbers on the wire to the names: keys, device, timestamp, type and values |
| EventTranslation.SerializersAgree | pkg/pb/event.go:34-142 | every decoded event is accepted by TranslateEvent, and MarshalJSON writes the object ToHomeAssistantJSON writes if and only if the device ID is not empty and the timestamp is positive or what the clock reads |
| EventTranslation.DecodedEventsRoundTrip | internal/runner/runner.go:301-389 | from an update to the posted event and back: for every positive int64 timestamp and every device ID the typed payload read is that of the update if and only if the timestamp survives float64 |
| EventTranslation.SerializedEventsRoundTrip | pkg/pb/event.go:34-142 | the same for the second serializer's object, for every non-empty device ID |
| HassDispatch.Record | internal/hass/client.go:233-237 | the ledger call of each way out of dispatch, and none for a cancelled one |
| HassDispatch.Dispatch | internal/hass/client.go:220-343 | the loop, with its early exits, computes the specified report and makes exactly the ledger call of its settlement; DispatchMeans says what the report is |
| HassDispatch.DispatchMeans | internal/hass/client.go:220-343 | in the fields of event, clock and answers: the age counts from the stamp, else the event's timestamp, else now; past the TTL nothing is sent; every request's last check is within the TTL; every wait is the linear backoff cut to what is left; and settlement, error and latency follow from the last answer or the check that failed |
| HassDispatch.SettlesItsOwnTrace | internal/hass/client.go:237-242 | a delivery marks the trace of the event's own ID, or of the number its text ID spells, and no other |
| HassDispatch.RefusalIsShown | internal/hass/client.go:309-342 | a refusal marks the trace failed with its error and latency; an expiry counts one drop and touches no trace |
| HassDispatch.RetryTimingBound | internal/hass/client.go:231-294 | for every configuration, monotone clock and sequence of answers: at most MaxRetries + 1 requests, and waits that sum to at most the TTL less the age at the first check, and at most RetryBackoff * MaxRetries * (MaxRetries + 1) / 2 |
| HassDispatch.WaitsFitBudget | internal/hass/client.go:259-286 | from any pass on, the waits fit in what is left of the time to live |
| HassDispatch.WaitsFitBackoff | internal/hass/client.go:273-286 | from any pass on, the waits fit in the backoffs still to come and no pass sends two requests |
| HassDispatch.BackoffSumIsTotal | internal/hass/client.go:273-277 | the linear backoffs sum to the closed form |
| HassDispatch.SettlementExplained | internal/hass/client.go:253-342 | every request was sent within the TTL, all but the last were answered transiently, and the settlement follows from the last: 2xx delivers, 4xx refuses, anything else goes on |
| HassDispatch.ExactlyOneSettlement | internal/hass/client.go:220-343 | one dispatch moves exactly one of acked, failed and dropped by one, or is abandoned under a cancelled context and moves none; it changes no trace but its own |
| DeliverySystem.EventsAreConserved | internal/hass/client.go:154-343 | in every reachable state, for any number of producers: recorded = dispatched + dropped + queued + in flight + abandoned + in the producers' hands; dispatched = acked + failed; abandoned events need a cancelled context |
| DeliverySystem.OneProducerHoldsAtMostOne | internal/runner/runner.go:716-741 | with the one producer the daemon runs, at most one event is recorded but not yet enqueued |
| DeliverySystem.QueueProtocol | internal/hass/client.go:127-215 | no send on and no second close of a closed channel, length at most BufferSize, accepted = dispatched then queued in order, and overflowDrops counts the calls that returned false |
| DeliverySystem.QueuedEventsAreStamped | internal/hass/client.go:158-160 | in every reachable state each event in the queue or in flight has a creation time |
| DeliverySystem.CloseNeverDeadlocks | internal/hass/client.go:184-215 | once the channel is closed, the worker's next statement can always run and brings it nearer its exit, and nothing anyone does takes it further away, so Close's wait ends |
| DeliverySystem.RingTellsTheTruth | internal/telemetry/store.go:136-195 | with a shared store a trace reads success or failure exactly when its event was acknowledged or refused, and pending otherwise; with separate stores always pending |
| DeliverySystem.OneStoreLawHoldsIff | internal/runner/runner.go:43-47 | the conservation law can be read off the runner's own store if and only if the stores are one, or nothing was forwarded or dropped |
| DeliverySystem.SeparateStoresBreakTheLaw | internal/runner/runner.go:43-47 | a run with separate stores in which the law fails: an event enqueued after Close |
| DeliverySystem.StepKeepsInv | internal/hass/client.go:127-343 | every step of every goroutine keeps the invariant tying queue, hands, worker, ledger and ring together |
| DeliverySystem.RunKeepsInv | internal/hass/client.go:127-343 | so does every run |
| HassClient.Client.constructor | internal/hass/client.go:54-84 | an open, unstarted client with an empty queue |
| HassClient.Client.Start | internal/hass/client.go:127-149 | starts once and never after Close, with the two errors in that order |
| HassClient.Client.Enqueue | internal/hass/client.go:154-180 | true exactly when open with room, and then the stamped event is last in the queue; otherwise a drop in both counters |
| HassClient.Client.Close | internal/hass/client.go:184-200 | closes the channel, and cancels the worker only when it was started |
| HassClient.Client.Worker | internal/hass/client.go:203-215 | settles events oldest first, each with its own dispatch, and leaves the rest queued |
| HassClient.EnqueueAlone | internal/hass/client.go:154-180 | the steps of one Enqueue with nobody in between have the effect the method promises |
| HassClient.QueuedEventsExpire | internal/hass/client.go:158-231 | an event enqueued at an instant is never sent once more than the TTL has passed since, and one that came with its own stamp keeps it |
| HassClient.WorkedOneMore | internal/hass/client.go:203-215 | the worker's ledger grows by one settlement at a time, each of the next event in the queue |
| Runner.Runner.HandleFrame | internal/runner/runner.go:716-741 | one frame's input events are recorded and offered to the queue one by one in order; a malformed frame changes nothing |
| Runner.Runner.Feed | internal/runner/runner.go:732-740 | one event recorded, given its ID and enqueued, whether or not the two stores are the same object |
| Runner.FrameIsAccountedFor | internal/runner/runner.go:716-741 | a frame's events get consecutive IDs; as many of the first as fit are queued, in order and under their IDs, and every other one is counted as dropped in the client and its ledger |
| Runner.FedEventIsNewest | internal/runner/runner.go:732-736 | a fed event is the newest trace of the runner's ledger, under the next ID, with its type and summary |
| Runner.SummaryMeans | internal/runner/runner.go:391-406 | the summary of each kind of event the bridge builds |
| Runner.FeedAlone | internal/runner/runner.go:732-740 | recording and enqueuing one event is a run of the transition system's steps |
| Runner.DecodedEventsTranslate | internal/runner/runner.go:721-730 | no event that Decode makes is skipped by TranslateEvent |
| PushMailbox.PushFrameNeverBlocks | internal/busybar/push.go:150-167 | in every interleaving the slot is empty when the unconditional send is reached, and the holder of the mutex can always finish without anyone's help or hindrance |
| PushMailbox.FramesAreAccountedFor | internal/busybar/push.go:139-263 | accepted frames = dropped + successes + failures + in transmission + in the slot + evicted and about to be counted |
| PushMailbox.LatestFrameWins | internal/busybar/push.go:139-194 | in every reachable state the worker received exactly the accepted frames that were taken, in order; the last accepted frame was evicted if and only if a PushFrame is between its eviction and the next send, and so, with no PushFrame under way, is in the slot or taken; no earlier frame is in the slot |
| PushMailbox.TakenFromIsSubsequence | internal/busybar/push.go:184-195 | each received frame is an accepted one, and they are in the order of acceptance |
| PushMailbox.LatestFrameCanBeEvicted | internal/busybar/push.go:157-167 | the exception is reached: a run in which the last accepted frame is gone before its successor is in the slot |
| PushMailbox.StepKeepsInv | internal/busybar/push.go:124-195 | every step keeps the invariant on slot, mutex holder, worker and ledger |
| PushMailbox.RunKeepsInv | internal/busybar/push.go:124-195 | so does every run |
| PushClient.Screened | internal/busybar/push.go:205-213 | the data is untouched; a frame with a screen goes there, one without to the default; a frame reaches the front only if addressed to it with the front as default |
| PushClient.OnlyOKAndNoContentSucceed | internal/busybar/push.go:215-262 | a push succeeds with status 200 or 204 only, and every other end has its own error |
| PushClient.Client.constructor | internal/busybar/push.go:102-117 | an open client with an empty mailbox |
| PushClient.Client.PushFrame | internal/busybar/push.go:139-170 | the four refusals in order; otherwise the frame replaces whatever is in the mailbox, and a replaced one is counted |
| PushClient.Client.Transmit | internal/busybar/push.go:197-263 | one attempt and one result recorded for each frame, a success exactly for 200 and 204 |
| PushClient.PushFrameAlone | internal/busybar/push.go:150-169 | the steps of one PushFrame with nobody in between have the effect the method promises |
| PushClient.TransmitAlone | internal/busybar/push.go:191-263 | the steps of one transmission with nobody in between have the effect the method promises |
| Font.Font4x6 | internal/calendar/display.go:365-435 | six rows to a glyph, and none of them uses the last |
| Font.Glyph | internal/calendar/display.go:321-331 | every rune has a glyph: its own, its capital's, or the question mark's |
| Font.GlyphOf | internal/calendar/display.go:322-331 | an undefined lower-case letter has its capital's glyph, any other undefined rune the question mark's |
| Font.ColumnsSpellTheRow | internal/calendar/display.go:344 | the four columns of a row, left to right, spell its number in binary |
| Renderer.SetPixel | internal/calendar/display.go:351-362 | writes the three bytes of a pixel on screen and in the buffer, and no other byte |
| Renderer.DrawGlyph | internal/calendar/display.go:321-349 | at any position, on screen or off, sets exactly the pixels the glyph lights and leaves every other |
| Renderer.DrawString | internal/calendar/display.go:310-319 | sets exactly the pixels the text lights, one rune every five columns, although it stops at the right edge |
| Renderer.RenderFrame | internal/calendar/display.go:281-302 | for every mode and any two lines the 3456 bytes show the pure picture pixel for pixel |
| Renderer.BytesFromPixels | internal/calendar/display.go:351-362 | the pixels fix every byte: the offsets cover the buffer |
| Renderer.MarginsAreBlack | internal/calendar/display.go:281-302 | rows 0, 6 to 8, 14 and 15 and every fifth column are black whatever the text, and any other lit pixel has its band's colour |
| Renderer.FirstFourteenRunesAreShown | internal/calendar/display.go:281-349 | every bit of the first fourteen runes of each line is visible in its line's colour, and no rune past the fifteenth shows |
| Renderer.PixelOfGlyph | internal/calendar/display.go:281-362 | the bytes of each pixel of the first fourteen runes of a line: the line's colour in numbers where the glyph has a bit, else black |
| Renderer.PixelsSpellTheGlyphs | internal/calendar/display.go:281-362 | in the payload of every frame the four pixels of each glyph row spell the row's number from left to right, title from row 1, lower line from row 9 |
| Renderer.UpdateTimeIsNotRendered | internal/calendar/display.go:281-302 | two states that differ in the update time only render alike |
| Display.TitleIsVisible | internal/calendar/display.go:226-239 | a title is never empty, starts with a visible character, and is as much of the trimmed summary, or of the fallback, as fits |
| Display.ScreenMeans | internal/calendar/display.go:242-267 | both lines in the fields of the event: the instant's own when idle, else the title and the event's countdown, or one reckoned from its end, each cut to fourteen runes and no shorter |
| Display.BusyScreen | internal/calendar/display.go:242-267 | an event the poller reports shows a title that fits and its countdown uncut, which reads back as the minutes left if and only if they do not overflow |
| Display.TickIsSound | internal/calendar/display.go:107-140 | one evaluation keeps "the last accepted frame renders lastState", and unless its push fails the screen shows what it should |
| Display.SuppressionIsSound | internal/calendar/display.go:107-140 | in every run, after each evaluation that does not fail, the last accepted frame is the rendering of the current state, pushed now or suppressed, and it is younger than the keep-alive interval |
| Display.PushesIff | internal/calendar/display.go:115-139 | a frame is pushed exactly when none was, mode or a line differs from the last pushed, or the keep-alive interval is over |
| Display.FailedPushIsRetried | internal/calendar/display.go:124-139 | a failed push changes nothing and the same screen is pushed again at the next evaluation |
| Display.Orchestrator.constructor | internal/calendar/display.go:86-103 | nothing pushed yet, and the default keep-alive for a non-positive one |
| Display.Orchestrator.Step | internal/calendar/display.go:107-140 | Step is one evaluation of that model, through the renderer and the push client; when it returns nil the last accepted frame's bytes are the rendering of the event |
| Countdown.CountdownReadsBack | internal/calendar/poller.go:107-118 | parsing the printed HH:MM gives the duration in minutes rounded up, minutes below 60, if and only if the rounding does not overflow int64 |
| Countdown.NothingLeftIsZero | internal/calendar/poller.go:108-110 | 00:00 is printed exactly when nothing is left |
| Countdown.CountdownIsMonotone | internal/calendar/poller.go:107-118 | two durations print alike if and only if they take as many minutes, and a longer one never reads back as less |
| Countdown.CeilMinutesIsLeast | internal/calendar/poller.go:112-113 | the number of minutes is the least that covers the duration, and at least one |
| Countdown.CountdownFits | internal/calendar/poller.go:107-118 | the text has at most ten characters (twelve past the overflow), all digits, colon or sign |
| Countdown.CountdownIsNotTrimmed | internal/calendar/display.go:253-259 | the display's trimming never alters it |
| CalendarPoller.IsDeclined | internal/calendar/poller.go:379-403 | the two loops compute: the user declined, or nobody listed is the user and somebody declined |
| CalendarPoller.SortSlice | internal/calendar/poller.go:336-346 | a permutation in which no later event comes before an earlier one |
| CalendarPoller.Poller.constructor | internal/calendar/poller.go:76-103 | an idle cache |
| CalendarPoller.Poller.Filter | internal/calendar/poller.go:279-334 | the candidates are the events of exactly the eligible items, in order |
| CalendarPoller.HeadIsChosen | internal/calendar/poller.go:336-349 | the head of any sorted permutation of the candidates is an eligible event that none comes before, and idle is cached exactly when no item is eligible |
| CalendarPoller.ChosenMeans | internal/calendar/poller.go:279-349 | in the fields of the items: idle exactly when no timed item is on, not cancelled, free or declined; else the event of one such that ends no later than any other, of those that end with it starts no earlier, and of those has no greater summary |
| CalendarPoller.ChosenIsUnique | internal/calendar/poller.go:336-346 | the comparator leaves one winner only |
| CalendarPoller.ChoiceIgnoresOrder | internal/calendar/poller.go:279-349 | reordering the items, or the attendees of any item, does not change the choice |
| CalendarPoller.PermutedItemsChooseAlike | internal/calendar/poller.go:279-349 | two answers that list the same items in any order cache the same event |
| CalendarPoller.Poller.PollOnce | internal/calendar/poller.go:199-356 | disabled or unbound caches idle, a failure keeps what is still on, an answer caches the winner among its items; and the ledger call of each |
| CalendarPoller.Poller.HandlePollFailure | internal/calendar/poller.go:358-377 | an event that has ended is dropped, any other is kept with a new countdown and its summary reported |
| CalendarPoller.ReportedIsShown | internal/calendar/poller.go:358-377 | a failed poll reports the summary of the event it leaves to be shown, and nothing when there is none |
| CalendarPoller.Poller.GetCurrentEvent | internal/calendar/poller.go:122-143 | what readers see is the cached event while it is on, with the countdown of the moment |
| CalendarPoller.OutageIsTransparent | internal/calendar/poller.go:122-143 | deleting every failed poll from any run changes nothing a reader sees whose clock is not behind them |
| CalendarPoller.OutagesAreVisibleIff | internal/calendar/poller.go:358-377 | in any run, at any time, a reader sees something else than without the failed polls if and only if it would see an event and some poll failed, since the last answer, at or past that event's end |
| CalendarPoller.FailureIsVisibleIff | internal/calendar/poller.go:358-377 | the same for one failed poll of any cached event |
| CalendarPoller.ShownEventIsCurrent | internal/calendar/poller.go:122-143 | an event shown is under way and is what the latest answered poll chose |
| CalendarPoller.EventIsShownIff | internal/calendar/poller.go:122-143 | a cached event is shown exactly from its start until its end |
| CalendarPoller.IdleIffNothingEligible | internal/calendar/poller.go:324-349 | right after an answered poll readers see idle exactly when no item was eligible, or the chosen event ends at Go's zero time, which reads as unset |
| Reconnect.Client.constructor | internal/busybar/client.go:85-121 | disconnected, with the initial delay |
| Reconnect.Client.Run | internal/busybar/client.go:292-356 | turn i of the loop asks for the specified delay, sleeps what jitter leaves of it, counts each connection attempt, and goes on until the context is done or a sleep is cut short |
| Reconnect.TurnMeans | internal/busybar/client.go:330-353 | in the fields of a turn: Initial after a connection that lasted the threshold, counted from when it was established, or from the attempt if it ended without an error; otherwise the largest number up to Max within the previous delay times the multiplier; and the sleep is the capped delay times the jitter |
| Reconnect.NextIsLargest | internal/busybar/client.go:190-201 | the next delay is the largest number up to Max that is at most the delay times the multiplier |
| Reconnect.BackoffLaw | internal/busybar/client.go:190-201 | after n drops since the last reset the delay is min(Max, fⁿ(Initial)) with f(x) = ⌊x·m⌋, for any positive multiplier, if Initial is at most Max; after a stable connection it is Initial |
| Reconnect.InitialMeansResetIff | internal/busybar/client.go:331-353 | in every run the delay is Initial on exactly the turns that reset it, if and only if the first step away from Initial changes it |
| Reconnect.DelaysGrowIff | internal/busybar/client.go:190-201 | delays never shrink if and only if the multiplier is at least one |
| Reconnect.DelaysNeverShrink | internal/busybar/client.go:292-356 | in every run an unstable turn waits at least as long as the one before, and at most Max |
| Reconnect.MaxIsReachedIff | internal/busybar/client.go:190-201 | Max is reached within Max - Initial drops if and only if the first step grows the delay or it is there already; otherwise truncation holds it at Initial for ever |
| Reconnect.ProductsFitInt64Iff | internal/busybar/client.go:190-201 | every product of every run fits int64 if and only if the largest delay scales within it or truncation holds the delay at Initial |
| Reconnect.SleepIsBounded | internal/busybar/client.go:170-179 | a sleep lies between 0 and the smaller of delay and maximum |
| Reconnect.EverySleepIsBounded | internal/busybar/client.go:292-356 | so does every sleep of every run |
| FrameChannel.ChannelIsClosedOnce | internal/busybar/client.go:204-245 | over every interleaving of Start, reader, any number of Close calls and the runner: closed at most once, and never sent to afterwards, unless Start came too late |
| FrameChannel.FramesAreConserved | internal/busybar/client.go:439-460 | in every reachable state the frames read are those handled, buffered and overflowed, in order of arrival, within the capacity |
| FrameChannel.OverflowsOnlyWhenFull | internal/busybar/client.go:447-454 | a frame overflows only when the buffer is full, and otherwise is the last in it |
| FrameChannel.ShutdownLosesNoFrame | internal/runner/runner.go:493-531 | when the drain is over every frame ever read was handled once and in order, or counted as overflow, and nothing happens to the channel after that |
| FrameChannel.StartPanicsIff | internal/busybar/client.go:204-245 | a Start can lead to a panic if and only if it finds the channel closed or a Close past its wait |
| FrameChannel.StartCanComeTooLate | internal/busybar/client.go:228-245 | a run that reaches such a Start: a Close before it finds nothing to wait for |
| FrameChannel.CloseWaitEndsIff | internal/busybar/client.go:228-245 | in every reachable state Close's wait cannot end while the reader runs and nothing has stopped it, which exactly the end of Start's context or another Close with a cancel function changes; otherwise it can end or the reader's next statement brings it nearer, and once started nothing takes it further away; a Close that had a cancel function never waits on an unstopped reader |
| FrameChannel.CloseBeforeStartCanWait | internal/busybar/client.go:228-245 | a run in which a Close that began before Start waits on an unstopped reader |
| FrameChannel.StepKeepsInv | internal/busybar/client.go:204-245 | every step keeps the invariant on channel, wait group, closers and runner |
| FrameChannel.RunKeepsInv | internal/busybar/client.go:204-245 | so does every run, and the capacity never changes |
| BindingStore.SaveIsAllOrNothing | internal/calendar/store.go:84-146 | whichever operation fails: nil exactly when none does, and then the path holds the whole synced encoding; otherwise the path is as it was; no temporary file is left unless removing it fails |
| BindingStore.AdvanceStaysInFlight | internal/calendar/store.go:99-143 | before the rename only the call's own temporary file changes, and the rename finds it written in full and synced |
| BindingStore.Store.Open | internal/calendar/store.go:37-59 | no file opens unbound, a file that unmarshals opens bound, anything else is an error |
| BindingStore.Store.Save | internal/calendar/store.go:84-146 | the errors and their order, success exactly when nothing fails, and the field and the file change together or not at all |
| BindingStore.Store.Write | internal/calendar/store.go:96-122 | Save's body up to the temporary file is the specified sequence of operations |
| BindingStore.Store.Fill | internal/calendar/store.go:124-145 | and so is the rest, with its deferred clean-up |
| BindingStore.Store.IsBound | internal/calendar/store.go:62-66 | true exactly when a store opened on the same disk would be bound |
| BindingStore.Store.Get | internal/calendar/store.go:70-79 | what a store opened on the same disk would give |
| OAuthCallback.HandleCallback | internal/server/server.go:515-586 | alone, a callback links exactly when it has a cookie that is not blank, that cookie as its state, no provider error, a code that is not blank, a manager, a successful exchange and a store that saves; which refusal every other request gets; conflict exactly when bound; and which answers clear the cookie |
| OAuthCallback.ScreenMeans | internal/server/server.go:527-560 | the checks in the request's fields, with the refusal of each |
| OAuthCallback.ArrivalMeans | internal/server/server.go:515-560 | among concurrent callbacks a new request gets a conflict exactly when the server is bound, the exchange exactly when it is genuine, and otherwise its refusal |
| OAuthCallback.OnlyGenuineRequestsLink | internal/server/server.go:515-586 | in every run a callback links, or gets to the exchange, only if it arrived with a genuine request at a server with a manager |
| OAuthCallback.ConflictMeansBound | internal/server/server.go:521-525 | in every run without an undone rename a callback is told of a conflict only when the disk holds a binding |
| OAuthCallback.NeverTorn | internal/calendar/store.go:99-143 | stopping the process or the power after any step leaves nothing, or the whole encoding of one binding, under the path, so the store opens again |
| OAuthCallback.FailedSaveLeavesUnbound | internal/calendar/store.go:99-141 | until the rename, and when Save returns an error, neither the field nor the path holds a binding; when it returns nil both hold its own |
| OAuthCallback.BindingIsWrittenOnce | internal/calendar/store.go:84-146 | once the disk holds a binding, every store opened on it answers Get with that one, through any callbacks, failures and restarts, unless a loss of power undoes the rename |
| OAuthCallback.OneCallbackLinks | internal/server/server.go:515-586 | over all concurrent callbacks, across restarts, at most one answers success=linked and its binding is the stored one |
| OAuthCallback.OneLinkLawHoldsIff | internal/server/server.go:568-586 | that law holds if and only if the server has a store, or no manager to exchange codes with |
| OAuthCallback.PowerFailureKeepsBindingIff | internal/calendar/store.go:138-145 | a loss of power forgets a binding if and only if the directory had not recorded the rename |
| OAuthCallback.LinkedBindingCanBeForgotten | internal/calendar/store.go:138-145 | a run in which a callback answers success=linked and the reopened store is unbound |
| OAuthCallback.WorkingSaveReturns | internal/calendar/store.go:84-146 | a Save whose operations all work comes to its end and returns nil |
| OAuthCallback.StepKeepsInv | internal/server/server.go:515-586 | every step of callbacks, Save, disk and restarts keeps the invariant |
| OAuthCallback.RunKeepsInv | internal/server/server.go:515-586 | so does every run |

## Left out

- HTTP, WebSocket, TLS, OAuth token exchange, URL building and headers: calls into libraries; only their outcomes appear, as oracles.
- Protobuf wire encoding and JSON text: messages are datatypes, JSON objects are maps, and the encoding of a binding is any codec that round-trips.
- RFC 3339 parsing (section 5.6 of RFC 3339): a time field is missing, malformed or an instant; time zones are not modelled.
- The idle date and time lines: any function of the instant, since they come from Go's time formatting.
- Tickers, goroutine scheduling and log output: the transition systems allow every order of steps and prove nothing about when a step happens.
- 64-bit overflow of RetryBackoff * attempt, of event ages and of the counters; floating-point rounding of the backoff multiplier and of the jitter, which are rationals here.
- A backoff product that int64 cannot hold: its conversion is up to the platform (on amd64 the delay turns negative and is not capped), and the model computes on; Reconnect.ProductsFitInt64Iff says exactly when that cannot arise.
- safeError and the text of errors: errors are a datatype that names the branch they come from.
- Case folding is exact only for the letters that fold to an ASCII letter, which are all that the compared words need; an email address with other letters is compared rune by rune.
- sort.Slice is an insertion sort here, of which only the contract of a sort is used.
- Copies and aliasing: proto.Clone in Get, Save and transmit is the identity on values.
- Nil receivers and parts: a nil decoder, store or client in handleFrame, a nil store in hass.Client, nil telemetry in the poller.
- SetConnected, SetPushEnabled and SetCalendarSyncEnabled: flags that nothing here reads.
- The mutexes of objects modelled as classes: a method is proved as if alone; the transition systems add the interference.
- A nil binding given to Save by a concurrent callback: the exchange never returns one; Store.Save alone handles it.
- Configuration, the OAuth manager, decoder metrics, the other HTTP handlers, the status template, the shutdown timeout of the runner and the decoder's own Run loop, which the daemon does not use.
- HassDispatch.RetryTimingBound: bounds the waits asked for, not the time the requests take, which the HTTP client's own timeout limits.
- CalendarPoller.OutageIsTransparent: for a reader whose clock is not behind a failed poll; OutagesAreVisibleIff says exactly what happens in every run.
- Reconnect.BackoffLaw: the uncapped formula needs Initial at most Max, as the statement says; with Initial above Max the first delay after a reset is Initial, and its sleep is still at most Max.
- FrameChannel.ChannelIsClosedOnce: for runs in which Start does not come too late; StartPanicsIff is the other half.
- OAuthCallback.OneCallbackLinks: for runs in which no loss of power undoes a rename, since the directory is not synced.
