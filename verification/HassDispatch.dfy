/** internal/hass/client.go, dispatch: one event against the clock, the HTTP transport and the
    worker's context, all of them oracles.  Instants and durations are nanoseconds. */
module HassDispatch {
  import opened Basics
  import opened Telemetry
  import opened HassEvent

  datatype Config = Config(ttl: int, retryBackoff: int, maxRetries: int, bufferSize: int)
  {
    /** NewClient refuses every other configuration. */
    predicate Valid() {
      ttl > 0 && retryBackoff > 0 && maxRetries > 0 && bufferSize > 0
    }
  }

  datatype Response = NotSent | NoAnswer | Status(code: int)

  predicate IsSuccess(r: Response) { r.Status? && 200 <= r.code < 300 }
  predicate IsPermanent(r: Response) { r.Status? && 400 <= r.code < 500 }
  predicate IsTransient(r: Response) { r.NoAnswer? || (r.Status? && !IsSuccess(r) && !IsPermanent(r)) }

  /** What the world does to one pass of the loop: when the remaining TTL is computed, whether the context
      ends the wait, when the wait is over, and what the request comes back with and when. */
  datatype Try = Try(checkedAt: int, cancelled: bool, resumedAt: int, response: Response, answeredAt: int)

  datatype Oracle = Oracle(now: int, checkedAt: int, marshalled: bool, start: int, tries: seq<Try>)

  datatype Settlement =
    | Delivered(latency: int)
    | Refused(error: Option<Error>, latency: int)
    | Expired
    | Abandoned

  /** `requests` are the answers to the requests sent; `waits` the durations asked of the timer. */
  datatype Report = Report(settlement: Settlement, requests: seq<Response>, waits: seq<int>)

  function CreatedAt(e: Event, now: int): int {
    if e.createdAt.Some? then e.createdAt.value
    else if e.timestamp > 0 then e.timestamp * 1_000_000_000
    else now
  }

  function TraceID(e: Event): int {
    if e.traceID == 0 && e.parsedID.Some? then e.parsedID.value else e.traceID
  }

  function Backoff(cfg: Config, attempt: nat): int {
    cfg.retryBackoff * attempt
  }

  function Wait(cfg: Config, createdAt: int, t: Try, attempt: nat): int {
    Min(Backoff(cfg, attempt), cfg.ttl - (t.checkedAt - createdAt))
  }

  function TransientError(r: Response): Error {
    if r.Status? then TransientStatus(r.code) else NetworkFailed
  }

  /** What the passes so far have left behind. */
  datatype Progress = Progress(lastErr: Option<Error>, latency: int, sent: seq<Response>, waited: seq<int>)

  datatype Next = Stop(report: Report) | Continue(progress: Progress)

  /** Pass `k` of the loop. */
  function Pass(cfg: Config, createdAt: int, start: int, t: Try, k: nat, p: Progress): Next {
    if k > 0 && cfg.ttl - (t.checkedAt - createdAt) <= 0 then Stop(Report(Expired, p.sent, p.waited))
    else
      var waited := if k > 0 then p.waited + [Wait(cfg, createdAt, t, k)] else p.waited;
      var sent := p.sent + [t.response];
      var took := t.answeredAt - start;
      if k > 0 && t.cancelled then Stop(Report(Abandoned, p.sent, waited))
      else if k > 0 && t.resumedAt - createdAt > cfg.ttl then Stop(Report(Expired, p.sent, waited))
      else if t.response.NotSent? then Stop(Report(Refused(Some(RequestFailed), p.latency), p.sent, waited))
      else if IsSuccess(t.response) then Stop(Report(Delivered(took), sent, waited))
      else if IsPermanent(t.response) then
        Stop(Report(Refused(Some(PermanentStatus(t.response.code)), took), sent, waited))
      else Continue(Progress(Some(TransientError(t.response)), took, sent, waited))
  }

  /** The loop from pass `k` on. */
  function Passes(cfg: Config, createdAt: int, start: int, tries: seq<Try>, k: nat, p: Progress): Report
    requires k <= |tries|
    decreases |tries| - k
  {
    if k == |tries| then Report(Refused(p.lastErr, p.latency), p.sent, p.waited)
    else
      match Pass(cfg, createdAt, start, tries[k], k, p)
      case Stop(report) => report
      case Continue(p') => Passes(cfg, createdAt, start, tries, k + 1, p')
  }

  const NOTHING_YET := Progress(None, 0, [], [])

  function Dispatched(cfg: Config, e: Event, o: Oracle): Report {
    var createdAt := CreatedAt(e, o.now);
    if o.checkedAt - createdAt > cfg.ttl then Report(Expired, [], [])
    else if !o.marshalled then Report(Refused(Some(MarshalFailed), 0), [], [])
    else Passes(cfg, createdAt, o.start, o.tries, 0, NOTHING_YET)
  }

  /** What a settlement makes of the ledger. */
  function Settled(s: StoreState, id: int, settlement: Settlement): StoreState
    requires 1 <= s.capacity
  {
    match settlement
    case Delivered(latency) => Apply(s, RecordForwardOutcome(id, Success, latency, None))
    case Refused(err, latency) => Apply(s, RecordForwardOutcome(id, Failure, latency, err))
    case Expired => Apply(s, RecordDrop)
    case Abandoned => s
  }

  /** The store call each exit makes. */
  method Record(store: Store, id: int, settlement: Settlement)
    requires store.Valid()
    modifies store
    ensures store.Valid() && store.View() == Settled(old(store.View()), id, settlement)
  {
    match settlement {
      case Delivered(latency) => store.RecordForwardOutcome(id, Success, latency, None);
      case Refused(err, latency) => store.RecordForwardOutcome(id, Failure, latency, err);
      case Expired => store.RecordDrop();
      case Abandoned =>
    }
  }

  lemma AbandonedRecordsNothing(s: StoreState, id: int)
    requires 1 <= s.capacity
    ensures Settled(s, id, Abandoned) == s
  {
  }

  /** dispatch itself, with its loop and its early exits. */
  method Dispatch(cfg: Config, e: Event, o: Oracle, store: Store) returns (report: Report)
    requires cfg.Valid() && |o.tries| == cfg.maxRetries + 1
    requires store.Valid()
    modifies store
    ensures report == Dispatched(cfg, e, o)
    ensures store.Valid() && store.View() == Settled(old(store.View()), TraceID(e), report.settlement)
  {
    hide Backoff, Settled, Apply;
    var createdAt := if e.createdAt.Some? then e.createdAt.value else o.now;
    if e.createdAt.None? && e.timestamp > 0 {
      createdAt := e.timestamp * 1_000_000_000;
    }
    var traceID := e.traceID;
    if traceID == 0 && e.parsedID.Some? {
      traceID := e.parsedID.value;
    }
    if o.checkedAt - createdAt > cfg.ttl {
      Record(store, traceID, Expired);
      return Report(Expired, [], []);
    }
    if !o.marshalled {
      Record(store, traceID, Refused(Some(MarshalFailed), 0));
      return Report(Refused(Some(MarshalFailed), 0), [], []);
    }

    var lastErr: Option<Error> := None;
    var finalLatency := 0;
    var requests: seq<Response> := [];
    var waits: seq<int> := [];
    var attempt := 0;
    while attempt <= cfg.maxRetries
      invariant 0 <= attempt <= cfg.maxRetries + 1
      invariant unchanged(store)
      invariant Passes(cfg, createdAt, o.start, o.tries, attempt, Progress(lastErr, finalLatency, requests, waits))
             == Passes(cfg, createdAt, o.start, o.tries, 0, NOTHING_YET)
    {
      var t := o.tries[attempt];
      ghost var next := Pass(cfg, createdAt, o.start, t, attempt, Progress(lastErr, finalLatency, requests, waits));
      assert next.Stop? ==> next.report == Dispatched(cfg, e, o);
      if attempt > 0 {
        var remainingTTL := cfg.ttl - (t.checkedAt - createdAt);
        if remainingTTL <= 0 {
          Record(store, traceID, Expired);
          return Report(Expired, requests, waits);
        }
        var backoff := Backoff(cfg, attempt);
        var waitDuration := backoff;
        if waitDuration > remainingTTL {
          waitDuration := remainingTTL;
        }
        waits := waits + [waitDuration];
        if t.cancelled {
          AbandonedRecordsNothing(store.View(), traceID);
          return Report(Abandoned, requests, waits);
        }
        if t.resumedAt - createdAt > cfg.ttl {
          Record(store, traceID, Expired);
          return Report(Expired, requests, waits);
        }
      }
      if t.response.NotSent? {
        lastErr := Some(RequestFailed);
        break;
      }
      requests := requests + [t.response];
      finalLatency := t.answeredAt - o.start;
      attempt := attempt + 1;
      if t.response.NoAnswer? {
        lastErr := Some(NetworkFailed);
        continue;
      }
      var statusCode := t.response.code;
      if 200 <= statusCode < 300 {
        Record(store, traceID, Delivered(finalLatency));
        return Report(Delivered(finalLatency), requests, waits);
      }
      if 400 <= statusCode < 500 {
        Record(store, traceID, Refused(Some(PermanentStatus(statusCode)), finalLatency));
        return Report(Refused(Some(PermanentStatus(statusCode)), finalLatency), requests, waits);
      }
      lastErr := Some(TransientStatus(statusCode));
    }
    Record(store, traceID, Refused(lastErr, finalLatency));
    report := Report(Refused(lastErr, finalLatency), requests, waits);
  }

  // ---- How many requests, and how long the waits ----

  function Sum(s: seq<int>): int {
    if s == [] then 0 else Sum(s[..|s| - 1]) + s[|s| - 1]
  }

  /** k + (k + 1) + ... + n. */
  function SumFromTo(k: nat, n: nat): nat
    decreases n + 1 - k
  {
    if k > n then 0 else k + SumFromTo(k + 1, n)
  }

  lemma {:induction false} SumFromToClosedForm(k: nat, n: nat)
    requires 1 <= k <= n + 1
    ensures 2 * SumFromTo(k, n) == n * (n + 1) - (k - 1) * k
    decreases n + 1 - k
  {
    if k <= n {
      SumFromToClosedForm(k + 1, n);
    }
  }

  /** The instant the pass before `k` ended. */
  function EndOfPass(o: Oracle, k: nat): int
    requires k <= |o.tries|
  {
    if k == 0 then o.checkedAt else o.tries[k - 1].answeredAt
  }

  /** A monotone clock and a timer that does not fire early. */
  ghost predicate FaithfulClock(cfg: Config, createdAt: int, o: Oracle) {
    forall k :: 0 <= k < |o.tries| ==>
      var t := o.tries[k];
      && EndOfPass(o, k) <= t.checkedAt <= t.resumedAt <= t.answeredAt
      && (k > 0 && !t.cancelled ==> t.checkedAt + Wait(cfg, createdAt, t, k) <= t.resumedAt)
  }

  lemma SumOfAppended(s: seq<int>, w: int)
    ensures Sum(s + [w]) == Sum(s) + w
  {
    assert (s + [w])[..|s|] == s;
  }

  /** Every wait fits in what is left of the budget, and the age grows by at least as much. */
  lemma {:induction false} WaitsFitBudget(cfg: Config, createdAt: int, o: Oracle, k: nat, p: Progress, budget: int)
    requires k <= |o.tries| && FaithfulClock(cfg, createdAt, o)
    requires Sum(p.waited) <= budget
    requires Sum(p.waited) <= budget - cfg.ttl + (EndOfPass(o, k) - createdAt)
    ensures Sum(Passes(cfg, createdAt, o.start, o.tries, k, p).waits) <= budget
    decreases |o.tries| - k
  {
    hide Backoff;
    if k < |o.tries| {
      var t := o.tries[k];
      SumOfAppended(p.waited, Wait(cfg, createdAt, t, k));
      var next := Pass(cfg, createdAt, o.start, t, k, p);
      if next.Continue? {
        WaitsFitBudget(cfg, createdAt, o, k + 1, next.progress, budget);
      }
    }
  }

  /** The backoffs of passes k to n. */
  function BackoffSum(cfg: Config, k: nat, n: nat): int
    decreases n + 1 - k
  {
    if k > n then 0 else Backoff(cfg, k) + BackoffSum(cfg, k + 1, n)
  }

  lemma BackoffIsPositive(cfg: Config, k: nat)
    requires cfg.Valid()
    ensures Backoff(cfg, k) >= 0 && (k > 0 ==> Backoff(cfg, k) > 0)
  {
  }

  lemma {:induction false} BackoffSumIsPositive(cfg: Config, k: nat, n: nat)
    requires cfg.Valid()
    ensures BackoffSum(cfg, k, n) >= 0
    decreases n + 1 - k
  {
    hide Backoff;
    if k <= n {
      BackoffIsPositive(cfg, k);
      BackoffSumIsPositive(cfg, k + 1, n);
    }
  }

  lemma ScaleSum(b: int, k: int, rest: int)
    ensures b * (k + rest) == b * k + b * rest
  {
  }

  lemma {:induction false} BackoffSumScales(cfg: Config, k: nat, n: nat)
    requires cfg.Valid()
    ensures BackoffSum(cfg, k, n) == cfg.retryBackoff * SumFromTo(k, n)
    decreases n + 1 - k
  {
    if k <= n {
      BackoffSumScales(cfg, k + 1, n);
      ScaleSum(cfg.retryBackoff, k, SumFromTo(k + 1, n));
    }
  }

  lemma {:induction false} WaitsFitBackoff(cfg: Config, createdAt: int, o: Oracle, k: nat, p: Progress)
    requires cfg.Valid() && k <= |o.tries| == cfg.maxRetries + 1
    requires |p.sent| == k && Sum(p.waited) >= 0
    ensures var r := Passes(cfg, createdAt, o.start, o.tries, k, p);
            && 0 <= Sum(r.waits) <= Sum(p.waited) + BackoffSum(cfg, k, cfg.maxRetries)
            && |r.requests| <= |o.tries|
    decreases |o.tries| - k
  {
    hide Backoff, EndOfPass, Sum;
    BackoffIsPositive(cfg, k);
    if k < |o.tries| {
      BackoffSumIsPositive(cfg, k + 1, cfg.maxRetries);
      var t := o.tries[k];
      SumOfAppended(p.waited, Wait(cfg, createdAt, t, k));
      var next := Pass(cfg, createdAt, o.start, t, k, p);
      if next.Continue? {
        WaitsFitBackoff(cfg, createdAt, o, k + 1, next.progress);
      }
    }
  }

  /** RetryBackoff * MaxRetries * (MaxRetries + 1) / 2. */
  function TotalBackoff(cfg: Config): int {
    cfg.retryBackoff * (cfg.maxRetries * (cfg.maxRetries + 1) / 2)
  }

  lemma BackoffSumIsTotal(cfg: Config)
    requires cfg.Valid()
    ensures BackoffSum(cfg, 0, cfg.maxRetries) == TotalBackoff(cfg)
  {
    BackoffSumScales(cfg, 0, cfg.maxRetries);
    SumFromToClosedForm(1, cfg.maxRetries);
    assert SumFromTo(0, cfg.maxRetries) == cfg.maxRetries * (cfg.maxRetries + 1) / 2;
  }

  /** dispatch sends at most MaxRetries + 1 requests, and unless the event is stale on arrival the waits it
      asks for sum to at most min(TTL - age at the first check, RetryBackoff * MaxRetries * (MaxRetries + 1) / 2). */
  lemma RetryTimingBound(cfg: Config, e: Event, o: Oracle)
    requires cfg.Valid() && |o.tries| == cfg.maxRetries + 1
    requires FaithfulClock(cfg, CreatedAt(e, o.now), o)
    ensures var r := Dispatched(cfg, e, o);
            var age := o.checkedAt - CreatedAt(e, o.now);
            && |r.requests| <= cfg.maxRetries + 1
            && (age > cfg.ttl ==> r.requests == [] && r.waits == [])
            && (age <= cfg.ttl ==>
                  && 0 <= Sum(r.waits) <= cfg.ttl - age
                  && Sum(r.waits) <= TotalBackoff(cfg))
  {
    hide Backoff, TotalBackoff;
    var createdAt := CreatedAt(e, o.now);
    if o.checkedAt - createdAt <= cfg.ttl {
      WaitsFitBudget(cfg, createdAt, o, 0, NOTHING_YET, cfg.ttl - (o.checkedAt - createdAt));
      WaitsFitBackoff(cfg, createdAt, o, 0, NOTHING_YET);
      BackoffSumIsTotal(cfg);
    }
  }

  // ---- What ends the loop, and what a settlement means ----

  /** Pass k's last TTL check. */
  function LastCheck(o: Oracle, k: nat): int
    requires k < |o.tries|
  {
    if k == 0 then o.checkedAt else o.tries[k].resumedAt
  }

  /** The requests are those of the first passes, each sent within the TTL, all but the last transient. */
  ghost predicate RequestsExplained(cfg: Config, createdAt: int, o: Oracle, requests: seq<Response>) {
    && |requests| <= |o.tries|
    && forall j :: 0 <= j < |requests| ==>
         && requests[j] == o.tries[j].response
         && !o.tries[j].response.NotSent?
         && LastCheck(o, j) - createdAt <= cfg.ttl
         && (j < |requests| - 1 ==> IsTransient(o.tries[j].response))
  }

  /** Why dispatch ended as it did, having sent `n` requests. */
  ghost predicate EndExplained(cfg: Config, createdAt: int, o: Oracle, n: nat, settlement: Settlement)
    requires n <= |o.tries|
  {
    var answered := n > 0 && !IsTransient(o.tries[n - 1].response);
    match settlement
    case Delivered(_) => n > 0 && IsSuccess(o.tries[n - 1].response)
    case Refused(err, _) =>
      if answered then IsPermanent(o.tries[n - 1].response)
                       && err == Some(PermanentStatus(o.tries[n - 1].response.code))
      else n == |o.tries| || o.tries[n].response.NotSent?
    case Expired =>
      && !answered && 0 < n < |o.tries|
      && (o.tries[n].checkedAt - createdAt >= cfg.ttl || o.tries[n].resumedAt - createdAt > cfg.ttl)
    case Abandoned =>
      !answered && 0 < n < |o.tries| && o.tries[n].cancelled
  }

  /** What may be said before pass `k`. */
  ghost predicate StillGoing(cfg: Config, createdAt: int, o: Oracle, k: nat, p: Progress)
    requires k <= |o.tries|
  {
    && |p.sent| == k && RequestsExplained(cfg, createdAt, o, p.sent)
    && (if k == 0 then o.checkedAt - createdAt <= cfg.ttl && |o.tries| > 0 else IsTransient(o.tries[k - 1].response))
  }

  lemma ContinueExplained(cfg: Config, createdAt: int, o: Oracle, k: nat, p: Progress)
    requires k < |o.tries| && StillGoing(cfg, createdAt, o, k, p)
    ensures var next := Pass(cfg, createdAt, o.start, o.tries[k], k, p);
            next.Continue? ==> StillGoing(cfg, createdAt, o, k + 1, next.progress)
  {
    hide Wait;
  }

  lemma StopExplained(cfg: Config, createdAt: int, o: Oracle, k: nat, p: Progress)
    requires k < |o.tries| && StillGoing(cfg, createdAt, o, k, p)
    ensures var next := Pass(cfg, createdAt, o.start, o.tries[k], k, p);
            next.Stop? ==>
              && RequestsExplained(cfg, createdAt, o, next.report.requests)
              && EndExplained(cfg, createdAt, o, |next.report.requests|, next.report.settlement)
  {
    hide Wait;
  }

  lemma EndOfRetries(cfg: Config, createdAt: int, o: Oracle, p: Progress)
    requires StillGoing(cfg, createdAt, o, |o.tries|, p)
    ensures RequestsExplained(cfg, createdAt, o, p.sent)
    ensures EndExplained(cfg, createdAt, o, |p.sent|, Refused(p.lastErr, p.latency))
  {
  }

  lemma {:induction false} PassesExplained(cfg: Config, createdAt: int, o: Oracle, k: nat, p: Progress)
    requires k <= |o.tries| && StillGoing(cfg, createdAt, o, k, p)
    ensures var r := Passes(cfg, createdAt, o.start, o.tries, k, p);
            && RequestsExplained(cfg, createdAt, o, r.requests)
            && EndExplained(cfg, createdAt, o, |r.requests|, r.settlement)
    decreases |o.tries| - k
  {
    hide Pass, StillGoing, EndExplained, RequestsExplained;
    if k == |o.tries| {
      EndOfRetries(cfg, createdAt, o, p);
    } else {
      ContinueExplained(cfg, createdAt, o, k, p);
      StopExplained(cfg, createdAt, o, k, p);
      var next := Pass(cfg, createdAt, o.start, o.tries[k], k, p);
      if next.Continue? {
        PassesExplained(cfg, createdAt, o, k + 1, next.progress);
      }
    }
  }

  /** One settlement, and why: for every event that passes the first TTL check and can be marshalled. */
  lemma SettlementExplained(cfg: Config, e: Event, o: Oracle)
    requires cfg.Valid() && |o.tries| == cfg.maxRetries + 1
    requires o.checkedAt - CreatedAt(e, o.now) <= cfg.ttl && o.marshalled
    ensures var r := Dispatched(cfg, e, o);
            && RequestsExplained(cfg, CreatedAt(e, o.now), o, r.requests)
            && EndExplained(cfg, CreatedAt(e, o.now), o, |r.requests|, r.settlement)
  {
    PassesExplained(cfg, CreatedAt(e, o.now), o, 0, NOTHING_YET);
  }

  /** A run of dispatch moves exactly one of acked, failed and dropped, by one, unless it is abandoned, which
      takes a cancelled context; and it moves nothing else but the outcome of its own trace. */
  lemma ExactlyOneSettlement(cfg: Config, e: Event, o: Oracle, s: StoreState)
    requires cfg.Valid() && |o.tries| == cfg.maxRetries + 1
    requires s.RingValid()
    ensures var x := Dispatched(cfg, e, o).settlement;
            var t := Settled(s, TraceID(e), x);
            && (t.forwarding.acked - s.forwarding.acked) + (t.forwarding.failed - s.forwarding.failed)
               + (t.dropCount - s.dropCount) + (if x.Abandoned? then 1 else 0) == 1
            && t.forwarding.dispatched - s.forwarding.dispatched
               == (t.forwarding.acked - s.forwarding.acked) + (t.forwarding.failed - s.forwarding.failed)
            && t.forwarding.acked >= s.forwarding.acked && t.forwarding.failed >= s.forwarding.failed
            && t.dropCount >= s.dropCount
            && (x.Abandoned? ==> exists k :: 0 < k < |o.tries| && o.tries[k].cancelled)
            && (forall i :: 0 <= i < |s.ring| && s.ring[i].id != TraceID(e) ==> t.ring[i] == s.ring[i])
  {
    var createdAt := CreatedAt(e, o.now);
    if o.checkedAt - createdAt <= cfg.ttl && o.marshalled {
      SettlementExplained(cfg, e, o);
    }
  }

  // ---- The same in the fields of the event, the clock and the answers ----

  /** The instant an event's age is counted from: when it was queued, else its own timestamp, else now. */
  ghost predicate CountsFrom(e: Event, o: Oracle, c: int) {
    && (forall t :: e.createdAt == Some(t) ==> c == t)
    && (e.createdAt.None? && e.timestamp > 0 ==> c == e.timestamp * 1_000_000_000)
    && (e.createdAt.None? && e.timestamp <= 0 ==> c == o.now)
  }

  ghost predicate GoesOn(r: Response) {
    r.NoAnswer? || (r.Status? && !(200 <= r.code <= 299) && !(400 <= r.code <= 499))
  }

  /** RetryBackoff * k, but no more than what is left of the TTL. */
  ghost function DueWait(cfg: Config, c: int, o: Oracle, k: nat): int
    requires k < |o.tries|
  {
    var left := cfg.ttl - (o.tries[k].checkedAt - c);
    if cfg.retryBackoff * k <= left then cfg.retryBackoff * k else left
  }

  /** What the passes before `k` amount to: one request each, answered neither 2xx nor 4xx and sent within the TTL;
      before each but the first a wait of the linear backoff, cut to what was left of the TTL; and the last
      answer's error and latency. */
  ghost predicate Retried(cfg: Config, c: int, o: Oracle, k: nat, p: Progress) {
    && k <= |o.tries| && |p.sent| == k
    && (forall j :: 0 <= j < k ==> p.sent[j] == o.tries[j].response && GoesOn(p.sent[j]))
    && (forall j :: 0 < j < k ==> o.tries[j].resumedAt - c <= cfg.ttl)
    && |p.waited| == (if k == 0 then 0 else k - 1)
    && (forall j :: 0 <= j < |p.waited| ==> p.waited[j] == DueWait(cfg, c, o, j + 1))
    && (if k == 0 then p.lastErr == None && p.latency == 0
        else
          && p.latency == o.tries[k - 1].answeredAt - o.start
          && p.lastErr == Some(if o.tries[k - 1].response.Status? then TransientStatus(o.tries[k - 1].response.code)
                               else NetworkFailed))
  }

  /** What a finished loop amounts to, `n` being the number of requests. */
  ghost predicate EndsAs(cfg: Config, c: int, o: Oracle, r: Report) {
    var n := |r.requests|;
    && n <= |o.tries|
    && (forall j :: 0 <= j < n ==> r.requests[j] == o.tries[j].response && !r.requests[j].NotSent?)
    && (forall j :: 0 <= j < n - 1 ==> GoesOn(r.requests[j]))
    && (forall j :: 0 < j < n ==> o.tries[j].resumedAt - c <= cfg.ttl)
    && n - 1 <= |r.waits| <= n && |r.waits| < |o.tries|
    && (forall j :: 0 <= j < |r.waits| ==> r.waits[j] == DueWait(cfg, c, o, j + 1))
    && (n > 0 && !GoesOn(r.requests[n - 1]) ==>
          var code, took := r.requests[n - 1].code, o.tries[n - 1].answeredAt - o.start;
          && |r.waits| == n - 1
          && r.settlement == if 200 <= code <= 299 then Delivered(took) else Refused(Some(PermanentStatus(code)), took))
    && (n == 0 || GoesOn(r.requests[n - 1]) ==>
          var took := if n == 0 then 0 else o.tries[n - 1].answeredAt - o.start;
          if n == |o.tries| then
            && n > 0
            && r.settlement == Refused(Some(if r.requests[n - 1].Status? then TransientStatus(r.requests[n - 1].code)
                                            else NetworkFailed), took)
          else if n > 0 && o.tries[n].checkedAt - c >= cfg.ttl then r.settlement == Expired && |r.waits| == n - 1
          else if n > 0 && o.tries[n].cancelled then r.settlement == Abandoned && |r.waits| == n
          else if n > 0 && o.tries[n].resumedAt - c > cfg.ttl then r.settlement == Expired && |r.waits| == n
          else o.tries[n].response.NotSent? && r.settlement == Refused(Some(RequestFailed), took) && |r.waits| == n)
  }

  lemma PassRetries(cfg: Config, c: int, o: Oracle, k: nat, p: Progress)
    requires k < |o.tries| && Retried(cfg, c, o, k, p)
    ensures var next := Pass(cfg, c, o.start, o.tries[k], k, p);
            next.Continue? ==> Retried(cfg, c, o, k + 1, next.progress)
  {
  }

  lemma PassEnds(cfg: Config, c: int, o: Oracle, k: nat, p: Progress)
    requires k < |o.tries| && Retried(cfg, c, o, k, p)
    ensures var next := Pass(cfg, c, o.start, o.tries[k], k, p);
            next.Stop? ==> EndsAs(cfg, c, o, next.report)
  {
  }

  lemma RetriesRunOut(cfg: Config, c: int, o: Oracle, p: Progress)
    requires |o.tries| > 0 && Retried(cfg, c, o, |o.tries|, p)
    ensures EndsAs(cfg, c, o, Report(Refused(p.lastErr, p.latency), p.sent, p.waited))
  {
  }

  lemma {:induction false} PassesEnd(cfg: Config, c: int, o: Oracle, k: nat, p: Progress)
    requires k <= |o.tries| && |o.tries| > 0 && Retried(cfg, c, o, k, p)
    ensures EndsAs(cfg, c, o, Passes(cfg, c, o.start, o.tries, k, p))
    decreases |o.tries| - k
  {
    hide Pass, Retried, EndsAs;
    if k == |o.tries| {
      RetriesRunOut(cfg, c, o, p);
    } else {
      PassRetries(cfg, c, o, k, p);
      PassEnds(cfg, c, o, k, p);
      var next := Pass(cfg, c, o.start, o.tries[k], k, p);
      if next.Continue? {
        PassesEnd(cfg, c, o, k + 1, next.progress);
      }
    }
  }

  lemma NothingSentYet(cfg: Config, c: int, o: Oracle)
    ensures Retried(cfg, c, o, 0, NOTHING_YET)
  {
  }

  /** dispatch from end to end.  The age of an event counts from when it was queued.  One that is past the TTL at the
      first check is dropped unsent, one that cannot be marshalled is refused, and the rest is as EndsAs says; and no
      request is sent whose last TTL check was past the TTL. */
  lemma DispatchMeans(cfg: Config, e: Event, o: Oracle, c: int)
    requires cfg.Valid() && |o.tries| == cfg.maxRetries + 1 && CountsFrom(e, o, c)
    ensures var r := Dispatched(cfg, e, o);
            && (o.checkedAt - c > cfg.ttl ==> r == Report(Expired, [], []))
            && (o.checkedAt - c <= cfg.ttl && !o.marshalled ==> r == Report(Refused(Some(MarshalFailed), 0), [], []))
            && (o.checkedAt - c <= cfg.ttl && o.marshalled ==> EndsAs(cfg, c, o, r))
            && (r.requests != [] ==> o.checkedAt <= c + cfg.ttl)
            && |r.requests| <= |o.tries|
            && (forall j :: 0 < j < |r.requests| ==> o.tries[j].resumedAt <= c + cfg.ttl)
  {
    assert CreatedAt(e, o.now) == c;
    NothingSentYet(cfg, c, o);
    PassesEnd(cfg, c, o, 0, NOTHING_YET);
    hide Retried, Passes, CreatedAt;
  }

  /** The outcome goes to the trace with the event's own ID, or with the number its text ID spells when it has none;
      with neither it is counted and reaches no trace. */
  lemma SettlesItsOwnTrace(e: Event, s: StoreState, latency: int, i: nat)
    requires s.RingValid() && i < |s.ring|
    ensures var t := Settled(s, TraceID(e), Delivered(latency));
            && t.forwarding.acked == s.forwarding.acked + 1
            && |t.ring| == |s.ring|
            && (t.ring[i].outcome == Success || t.ring[i] == s.ring[i])
            && (e.traceID != 0 && s.ring[i].id == e.traceID ==> t.ring[i].outcome == Success)
            && (e.traceID == 0 && e.parsedID == Some(s.ring[i].id) ==> t.ring[i].outcome == Success)
            && (s.ring[i].id != e.traceID && (e.traceID != 0 || e.parsedID != Some(s.ring[i].id)) ==>
                  t.ring[i] == s.ring[i])
  {
  }

  /** A refusal marks its trace failed, with the error and the whole milliseconds of the latency; an expiry counts one
      drop and leaves every trace as it was. */
  lemma RefusalIsShown(e: Event, s: StoreState, err: Option<Error>, latency: int, i: nat)
    requires s.RingValid() && i < |s.ring| && s.ring[i].id == e.traceID
    ensures var t := Settled(s, TraceID(e), Refused(err, latency));
            && t.forwarding.failed == s.forwarding.failed + 1 && t.forwarding.acked == s.forwarding.acked
            && |t.ring| == |s.ring| && t.ring[i].outcome == Failure
            && (err.Some? ==> t.ring[i].error == err)
            && (latency >= 0 ==>
                  1_000_000 * t.ring[i].latencyMs <= latency < 1_000_000 * t.ring[i].latencyMs + 1_000_000)
    ensures var t := Settled(s, TraceID(e), Expired);
            t.dropCount == s.dropCount + 1 && t.ring == s.ring && t.forwarding == s.forwarding
  {
  }
}
