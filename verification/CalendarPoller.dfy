/** internal/calendar/poller.go: which event a poll caches, and what readers see between polls and through
    outages.  Instants are nanoseconds since Go's zero time. */
module CalendarPoller {
  import opened Basics
  import opened Telemetry
  import opened Countdown

  const ZERO_TIME: int := 0

  datatype ActiveEvent = ActiveEvent(summary: string, start: int, end: int, countdown: string, idle: bool)

  const IDLE := ActiveEvent("", ZERO_TIME, ZERO_TIME, "", true)

  /** A dateTime field: empty, not RFC 3339, or an instant. */
  datatype TimeField = Missing | Malformed | Instant(at: int)
  {
    function At(): int { if Instant? then at else ZERO_TIME }
  }

  datatype Attendee = Attendee(email: string, self: bool, responseStatus: string)

  datatype Item = Item(summary: string, status: string, transparency: string, start: TimeField, end: TimeField,
                       attendees: seq<Attendee>)

  // ---- Filter ----

  predicate IsUser(a: Attendee, email: string) {
    a.self || (email != "" && EqualFold(a.email, email))
  }

  predicate HasDeclined(a: Attendee) {
    EqualFold(a.responseStatus, "declined")
  }

  /** The user has declined; or, when nobody listed is the user, somebody has. */
  ghost predicate Declined(attendees: seq<Attendee>, email: string) {
    || (exists a :: a in attendees && IsUser(a, email) && HasDeclined(a))
    || ((forall a :: a in attendees ==> !IsUser(a, email)) && (exists a :: a in attendees && HasDeclined(a)))
  }

  method IsDeclined(attendees: seq<Attendee>, email: string) returns (declined: bool)
    ensures declined <==> Declined(attendees, email)
  {
    hide IsUser, HasDeclined;
    if |attendees| == 0 {
      return false;
    }
    var hasSelfOrEmail := false;
    var i := 0;
    while i < |attendees|
      invariant 0 <= i <= |attendees|
      invariant hasSelfOrEmail <==> exists k :: 0 <= k < i && IsUser(attendees[k], email)
      invariant forall k :: 0 <= k < i && IsUser(attendees[k], email) ==> !HasDeclined(attendees[k])
    {
      if IsUser(attendees[i], email) {
        hasSelfOrEmail := true;
        if HasDeclined(attendees[i]) {
          return true;
        }
      }
      i := i + 1;
    }
    if !hasSelfOrEmail {
      i := 0;
      while i < |attendees|
        invariant 0 <= i <= |attendees|
        invariant forall k :: 0 <= k < i ==> !HasDeclined(attendees[k])
      {
        if HasDeclined(attendees[i]) {
          return true;
        }
        i := i + 1;
      }
    }
    return false;
  }

  /** Neither cancelled, free, all-day, unreadable nor declined, and under way. */
  ghost predicate Eligible(item: Item, email: string, now: int) {
    && !EqualFold(item.status, "cancelled")
    && !EqualFold(item.transparency, "transparent")
    && item.start.Instant? && item.end.Instant?
    && !Declined(item.attendees, email)
    && item.start.At() <= now < item.end.At()
  }

  function Activated(item: Item, now: int): ActiveEvent {
    ActiveEvent(item.summary, item.start.At(), item.end.At(), FormatCountdown(TimeSub(item.end.At(), now)), false)
  }

  /** Some eligible item has this event. */
  ghost predicate Offered(e: ActiveEvent, items: seq<Item>, email: string, now: int) {
    exists item :: item in items && Eligible(item, email, now) && e == Activated(item, now)
  }

  ghost function Candidates(items: seq<Item>, email: string, now: int): seq<ActiveEvent> {
    if items == [] then []
    else
      var n := |items| - 1;
      Candidates(items[..n], email, now) + (if Eligible(items[n], email, now) then [Activated(items[n], now)] else [])
  }

  // ---- Selection ----

  /** The comparator: earliest end, then latest start, then summary. */
  predicate Before(a: ActiveEvent, b: ActiveEvent) {
    if a.end != b.end then a.end < b.end
    else if a.start != b.start then a.start > b.start
    else StringLess(a.summary, b.summary)
  }

  lemma BeforeIsTransitive(a: ActiveEvent, b: ActiveEvent, c: ActiveEvent)
    requires Before(a, b) && Before(b, c)
    ensures Before(a, c)
  {
    if a.end == b.end == c.end && a.start == b.start == c.start {
      StringLessIsTransitive(a.summary, b.summary, c.summary);
    }
  }

  lemma BeforeIsTotal(a: ActiveEvent, b: ActiveEvent)
    ensures Before(a, b) || Before(b, a) || (a.end == b.end && a.start == b.start && a.summary == b.summary)
    ensures !Before(a, a)
  {
    StringLessIsTotal(a.summary, b.summary);
    StringLessIsTotal(a.summary, a.summary);
  }

  ghost predicate Sorted(events: seq<ActiveEvent>) {
    forall i, j :: 0 <= i < j < |events| ==> !Before(events[j], events[i])
  }

  /** sort.Slice with the comparator, of which only this contract is used. */
  method SortSlice(events: seq<ActiveEvent>) returns (sorted: seq<ActiveEvent>)
    ensures multiset(sorted) == multiset(events) && Sorted(sorted)
  {
    hide Before;
    sorted := [];
    var n := 0;
    while n < |events|
      invariant 0 <= n <= |events| && Sorted(sorted)
      invariant multiset(sorted) == multiset(events[..n])
    {
      var x := events[n];
      var k := 0;
      while k < |sorted| && !Before(x, sorted[k])
        invariant 0 <= k <= |sorted|
        invariant forall j :: 0 <= j < k ==> !Before(x, sorted[j])
      {
        k := k + 1;
      }
      InsertKeepsSorted(sorted, k, x);
      assert sorted == sorted[..k] + sorted[k..] && events[..n + 1] == events[..n] + [x];
      sorted := sorted[..k] + [x] + sorted[k..];
      n := n + 1;
    }
    assert events[..n] == events;
  }

  lemma InsertKeepsSorted(sorted: seq<ActiveEvent>, k: nat, x: ActiveEvent)
    requires Sorted(sorted) && k <= |sorted|
    requires forall j :: 0 <= j < k ==> !Before(x, sorted[j])
    requires k < |sorted| ==> Before(x, sorted[k])
    ensures Sorted(sorted[..k] + [x] + sorted[k..])
  {
    hide Before;
    forall j | k <= j < |sorted|
      ensures !Before(sorted[j], x)
    {
      if Before(sorted[j], x) {
        BeforeIsTransitive(sorted[j], x, sorted[k]);
        BeforeIsTotal(sorted[k], sorted[k]);
      }
    }
  }

  /** What a poll at `now` may cache: the idle event if no item is eligible, or else an eligible item's event
      that no other comes before. */
  ghost predicate Chosen(e: ActiveEvent, items: seq<Item>, email: string, now: int) {
    if forall item :: item in items ==> !Eligible(item, email, now) then e == IDLE
    else Offered(e, items, email, now) && forall d :: Offered(d, items, email, now) ==> !Before(d, e)
  }

  /** There is only one such event. */
  lemma ChosenIsUnique(d: ActiveEvent, e: ActiveEvent, items: seq<Item>, email: string, now: int)
    ensures Chosen(d, items, email, now) && Chosen(e, items, email, now) ==> d == e
  {
    hide Eligible, Before, FormatCountdown;
    BeforeIsTotal(d, e);
  }

  lemma {:induction false} CandidatesAreOffered(items: seq<Item>, email: string, now: int)
    ensures forall e :: e in Candidates(items, email, now) <==> Offered(e, items, email, now)
  {
    hide Eligible, Activated;
    if items != [] {
      var n := |items| - 1;
      CandidatesAreOffered(items[..n], email, now);
      assert items == items[..n] + [items[n]];
    }
  }

  /** Whatever permutation the sort leaves, its head is the chosen event. */
  lemma HeadIsChosen(items: seq<Item>, email: string, now: int, sorted: seq<ActiveEvent>)
    requires multiset(sorted) == multiset(Candidates(items, email, now)) && Sorted(sorted)
    ensures Chosen(if sorted == [] then IDLE else sorted[0], items, email, now)
  {
    hide Eligible, Activated, Before, Candidates;
    CandidatesAreOffered(items, email, now);
    SameElements(sorted, Candidates(items, email, now));
    assert forall item :: item in items && Eligible(item, email, now) ==>
      Offered(Activated(item, now), items, email, now);
    if sorted != [] {
      assert sorted[0] in sorted;
      BeforeIsTotal(sorted[0], sorted[0]);
    }
  }

  lemma SameElements<T>(a: seq<T>, b: seq<T>)
    requires multiset(a) == multiset(b)
    ensures forall x :: x in a <==> x in b
    ensures |a| == |b|
  {
    assert forall x :: x in a <==> x in multiset(a);
    assert forall x :: x in b <==> x in multiset(b);
    assert |a| == |multiset(a)| && |b| == |multiset(b)|;
  }

  /** The same item, but for the order of its attendees. */
  ghost predicate SameItem(a: Item, b: Item) {
    a.(attendees := []) == b.(attendees := []) && multiset(a.attendees) == multiset(b.attendees)
  }

  ghost predicate Covers(items: seq<Item>, others: seq<Item>) {
    forall a :: a in items ==> exists b :: b in others && SameItem(a, b)
  }

  lemma SameItemSameFate(a: Item, b: Item, email: string, now: int)
    requires SameItem(a, b)
    ensures Eligible(a, email, now) <==> Eligible(b, email, now)
    ensures Eligible(a, email, now) ==> Activated(a, now) == Activated(b, now)
  {
    hide IsUser, HasDeclined, FormatCountdown;
    SameElements(a.attendees, b.attendees);
    assert Declined(a.attendees, email) <==> Declined(b.attendees, email);
    assert a.status == a.(attendees := []).status && b.status == b.(attendees := []).status;
    assert a.transparency == a.(attendees := []).transparency && b.transparency == b.(attendees := []).transparency;
    assert a.start == a.(attendees := []).start && b.start == b.(attendees := []).start;
    assert a.end == a.(attendees := []).end && b.end == b.(attendees := []).end;
    assert a.summary == a.(attendees := []).summary && b.summary == b.(attendees := []).summary;
  }

  lemma CoveredItemsOffer(e: ActiveEvent, items: seq<Item>, others: seq<Item>, email: string, now: int)
    requires Covers(items, others)
    ensures Offered(e, items, email, now) ==> Offered(e, others, email, now)
    ensures (exists a :: a in items && Eligible(a, email, now)) ==> (exists b :: b in others && Eligible(b, email, now))
  {
    hide Eligible, Activated, SameItem;
    forall a | a in items && Eligible(a, email, now)
      ensures exists b :: b in others && Eligible(b, email, now) && Activated(b, now) == Activated(a, now)
    {
      var b :| b in others && SameItem(a, b);
      SameItemSameFate(a, b, email, now);
    }
  }

  /** The choice does not depend on the order of the items or of the attendees of any of them. */
  lemma ChoiceIgnoresOrder(e: ActiveEvent, items: seq<Item>, others: seq<Item>, email: string, now: int)
    requires Covers(items, others) && Covers(others, items)
    ensures Chosen(e, items, email, now) ==> Chosen(e, others, email, now)
  {
    hide Eligible, Activated, Before, SameItem, Covers;
    CoveredItemsOffer(e, items, others, email, now);
    forall d
      ensures Offered(d, others, email, now) ==> Offered(d, items, email, now)
    {
      CoveredItemsOffer(d, others, items, email, now);
    }
    CoveredItemsOffer(e, others, items, email, now);
  }

  /** So two answers that list the same items in any order cache the same event. */
  lemma PermutedItemsChooseAlike(d: ActiveEvent, e: ActiveEvent, items: seq<Item>, others: seq<Item>,
                                 email: string, now: int)
    requires multiset(items) == multiset(others)
    ensures Chosen(d, items, email, now) && Chosen(e, others, email, now) ==> d == e
  {
    hide Chosen;
    SameElements(items, others);
    assert forall a: Item :: SameItem(a, a);
    ChoiceIgnoresOrder(d, items, others, email, now);
    ChosenIsUnique(d, e, others, email, now);
  }

  // ---- Who wins, in the fields of the items ----

  /** The user, marked as self or listed by email, has declined; or nobody listed is the user and somebody has. */
  ghost predicate TurnedDown(attendees: seq<Attendee>, email: string) {
    || (exists a :: a in attendees && (a.self || (email != "" && EqualFold(a.email, email)))
                    && EqualFold(a.responseStatus, "declined"))
    || ((forall a :: a in attendees ==> !a.self && (email == "" || !EqualFold(a.email, email)))
        && (exists a :: a in attendees && EqualFold(a.responseStatus, "declined")))
  }

  /** A timed item that is on at `now`, neither cancelled, free nor turned down. */
  ghost predicate IsOn(item: Item, email: string, now: int) {
    && item.start.Instant? && item.end.Instant? && item.start.at <= now && now < item.end.at
    && !EqualFold(item.status, "cancelled") && !EqualFold(item.transparency, "transparent")
    && !TurnedDown(item.attendees, email)
  }

  /** The event shows `item`: one that is on, ends no later than any other that is, of those that end with it starts
      no earlier, and of those that start with it as well has no greater summary. */
  ghost predicate Shows(e: ActiveEvent, item: Item, items: seq<Item>, email: string, now: int) {
    && item in items && IsOn(item, email, now)
    && !e.idle && e.summary == item.summary && e.start == item.start.at && e.end == item.end.at
    && e.countdown == FormatCountdown(TimeSub(e.end, now))
    && (forall other :: other in items && IsOn(other, email, now) ==>
          && e.end <= other.end.at
          && (other.end.at == e.end ==> e.start >= other.start.at)
          && (other.end.at == e.end && other.start.at == e.start ==> !StringLess(other.summary, e.summary)))
  }

  lemma EligibleMeans(item: Item, email: string, now: int)
    ensures Eligible(item, email, now) <==> IsOn(item, email, now)
  {
    hide EqualFold;
  }

  lemma BeforeMeans(a: ActiveEvent, b: ActiveEvent)
    requires !Before(b, a)
    ensures a.end <= b.end && (b.end == a.end ==> a.start >= b.start)
    ensures b.end == a.end && b.start == a.start ==> !StringLess(b.summary, a.summary)
  {
  }

  /** What a poll caches is the idle event exactly when no item is on, and otherwise shows the winner of those. */
  lemma ChosenMeans(e: ActiveEvent, items: seq<Item>, email: string, now: int)
    ensures Chosen(e, items, email, now) ==>
              if forall item :: item in items ==> !IsOn(item, email, now) then e == IDLE
              else exists item :: Shows(e, item, items, email, now)
  {
    hide Eligible, IsOn, Before, FormatCountdown, TimeSub;
    forall item ensures Eligible(item, email, now) <==> IsOn(item, email, now) {
      EligibleMeans(item, email, now);
    }
    if Chosen(e, items, email, now) && exists item :: item in items && Eligible(item, email, now) {
      var item :| item in items && Eligible(item, email, now) && e == Activated(item, now);
      OnMeansTimed(item, email, now);
      forall other | other in items && IsOn(other, email, now)
        ensures e.end <= other.end.At() && (other.end.At() == e.end ==> e.start >= other.start.At())
        ensures other.end.At() == e.end && other.start.At() == e.start ==> !StringLess(other.summary, e.summary)
        ensures other.start.Instant? && other.end.Instant?
      {
        OnMeansTimed(other, email, now);
        assert Offered(Activated(other, now), items, email, now);
        BeforeMeans(e, Activated(other, now));
      }
      assert Shows(e, item, items, email, now);
    }
  }

  lemma OnMeansTimed(item: Item, email: string, now: int)
    requires IsOn(item, email, now)
    ensures item.start.Instant? && item.end.Instant?
  {
  }

  // ---- What readers see ----

  function CurrentEvent(cached: ActiveEvent, now: int): ActiveEvent {
    if cached.idle || cached.end == ZERO_TIME || now >= cached.end || now < cached.start then IDLE
    else cached.(countdown := FormatCountdown(TimeSub(cached.end, now)), idle := false)
  }

  function AfterFailure(cached: ActiveEvent, now: int): ActiveEvent {
    if cached.idle || cached.end == ZERO_TIME then cached
    else if now >= cached.end then IDLE
    else cached.(countdown := FormatCountdown(TimeSub(cached.end, now)))
  }

  /** The summary a failed poll reports, from what it leaves cached. */
  function ReportedSummary(cached: ActiveEvent): string {
    if cached.idle || cached.end == ZERO_TIME then "" else cached.summary
  }

  /** A failed poll reports the event it leaves to be shown, and nothing when there is none. */
  lemma ReportedIsShown(cached: ActiveEvent, now: int)
    ensures ReportedSummary(AfterFailure(cached, now))
         == if !cached.idle && cached.end != ZERO_TIME && now < cached.end then cached.summary else ""
    ensures now >= cached.start ==> ReportedSummary(AfterFailure(cached, now)) == CurrentEvent(cached, now).summary
  {
    hide FormatCountdown;
  }

  /** A poll: dormant (disabled or unbound), failed, or answered with items, which choose what is cached. */
  datatype Poll = Dormant | Outage(now: int) | Answer(now: int, chosen: ActiveEvent)

  function Cached(polls: seq<Poll>): ActiveEvent {
    if polls == [] then IDLE
    else
      match polls[|polls| - 1]
      case Dormant => IDLE
      case Outage(now) => AfterFailure(Cached(polls[..|polls| - 1]), now)
      case Answer(_, chosen) => chosen
  }

  function WithoutFailures(polls: seq<Poll>): seq<Poll> {
    if polls == [] then []
    else
      WithoutFailures(polls[..|polls| - 1]) + (if polls[|polls| - 1].Outage? then [] else [polls[|polls| - 1]])
  }

  /** How many polls there were up to and including the last that was not a failure. */
  function AnsweredBy(polls: seq<Poll>): (n: nat)
    ensures n <= |polls| && forall i :: n <= i < |polls| ==> polls[i].Outage?
  {
    if polls == [] then 0
    else if polls[|polls| - 1].Outage? then AnsweredBy(polls[..|polls| - 1])
    else |polls|
  }

  /** Some poll has failed, since the last that did not, at or after `end`. */
  ghost predicate FailedAfter(polls: seq<Poll>, end: int) {
    exists i :: AnsweredBy(polls) <= i < |polls| && polls[i].now >= end
  }

  lemma FailedAfterGrows(polls: seq<Poll>, end: int)
    requires polls != []
    ensures var last := polls[|polls| - 1];
            FailedAfter(polls, end) <==>
              last.Outage? && (last.now >= end || FailedAfter(polls[..|polls| - 1], end))
  {
    var before := polls[..|polls| - 1];
    assert forall i :: 0 <= i < |before| ==> before[i] == polls[i];
    if polls[|polls| - 1].Outage? && FailedAfter(before, end) {
      var i :| AnsweredBy(before) <= i < |before| && before[i].now >= end;
      assert polls[i].now >= end;
    }
    if FailedAfter(polls, end) {
      var i :| AnsweredBy(polls) <= i < |polls| && polls[i].now >= end;
      if i < |before| {
        assert before[i].now >= end;
      }
    }
  }

  /** Outages leave the cached event as it was, but for its countdown, until one of them finds it over. */
  lemma {:induction false} OutagesDropWhatIsOver(polls: seq<Poll>)
    ensures var a, b := Cached(polls), Cached(WithoutFailures(polls));
            if !b.idle && b.end != ZERO_TIME && FailedAfter(polls, b.end) then a == IDLE
            else a == b.(countdown := a.countdown)
  {
    hide FormatCountdown, FailedAfter, AnsweredBy;
    if polls != [] {
      var before := polls[..|polls| - 1];
      OutagesDropWhatIsOver(before);
      FailedAfterGrows(polls, Cached(WithoutFailures(polls)).end);
      var kept := WithoutFailures(polls);
      assert polls[|polls| - 1].Outage? || kept[|kept| - 1] == polls[|polls| - 1];
      assert polls[|polls| - 1].Outage? ==> kept == WithoutFailures(before);
    } else {
      NothingFailed();
    }
  }

  lemma NothingFailed()
    ensures forall end :: !FailedAfter([], end)
  {
  }

  /** Exactly when outages show: in any run, a reader at `t` sees something else than if every failed poll were
      deleted if and only if without them it would see an event, and some poll that failed since the last answer
      read a clock at or past that event's end. */
  lemma OutagesAreVisibleIff(polls: seq<Poll>, t: int)
    ensures CurrentEvent(Cached(polls), t) != CurrentEvent(Cached(WithoutFailures(polls)), t) <==>
              var b := Cached(WithoutFailures(polls));
              !CurrentEvent(b, t).idle && FailedAfter(polls, b.end)
  {
    hide FormatCountdown, Cached, WithoutFailures, FailedAfter;
    OutagesDropWhatIsOver(polls);
  }

  /** So outages are transparent to every reader whose clock is not behind any failed poll's. */
  lemma OutageIsTransparent(polls: seq<Poll>, t: int)
    requires forall i :: 0 <= i < |polls| && polls[i].Outage? ==> polls[i].now <= t
    ensures CurrentEvent(Cached(polls), t) == CurrentEvent(Cached(WithoutFailures(polls)), t)
  {
    hide FormatCountdown, Cached, WithoutFailures;
    OutagesAreVisibleIff(polls, t);
  }

  /** The same for one failed poll at `f` of any cached event. */
  lemma FailureIsVisibleIff(cached: ActiveEvent, f: int, t: int)
    ensures CurrentEvent(AfterFailure(cached, f), t) != CurrentEvent(cached, t)
            <==> !CurrentEvent(cached, t).idle && f >= cached.end
  {
    hide FormatCountdown;
  }

  /** The last poll that was not a failure, if any. */
  function LastAnswer(polls: seq<Poll>): Poll {
    if polls == [] then Dormant
    else if polls[|polls| - 1].Outage? then LastAnswer(polls[..|polls| - 1])
    else polls[|polls| - 1]
  }

  lemma {:induction false} CacheIsLastAnswer(polls: seq<Poll>)
    ensures !Cached(polls).idle ==>
      LastAnswer(polls).Answer? && Cached(polls) == LastAnswer(polls).chosen.(countdown := Cached(polls).countdown)
  {
    hide FormatCountdown;
    if polls != [] {
      CacheIsLastAnswer(polls[..|polls| - 1]);
    }
  }

  /** Whatever the clock, an event shown is under way and is what the latest answered poll chose. */
  lemma ShownEventIsCurrent(polls: seq<Poll>, t: int)
    ensures var shown := CurrentEvent(Cached(polls), t);
            !shown.idle ==>
              && shown.start <= t < shown.end
              && LastAnswer(polls).Answer?
              && shown == LastAnswer(polls).chosen.(countdown := FormatCountdown(TimeSub(shown.end, t)))
  {
    hide FormatCountdown, Cached, LastAnswer;
    CacheIsLastAnswer(polls);
  }

  /** An event is shown exactly while it is on. */
  lemma EventIsShownIff(cached: ActiveEvent, t: int)
    ensures !CurrentEvent(cached, t).idle <==>
              !cached.idle && cached.end != ZERO_TIME && cached.start <= t && t < cached.end
    ensures !CurrentEvent(cached, t).idle ==>
              CurrentEvent(cached, t) == cached.(countdown := FormatCountdown(TimeSub(cached.end, t)))
  {
    hide FormatCountdown;
  }

  /** Right after an answered poll the display is idle exactly when no item was eligible (or the chosen one ends
      at Go's zero time, which reads as unset). */
  lemma IdleIffNothingEligible(e: ActiveEvent, items: seq<Item>, email: string, now: int)
    ensures Chosen(e, items, email, now) ==>
              (CurrentEvent(e, now).idle <==>
                 (forall item :: item in items ==> !Eligible(item, email, now)) || e.end == ZERO_TIME)
  {
    hide FormatCountdown, Declined;
  }

  // ---- The poller in the source's form ----

  datatype Response = Failed(error: Error) | Listed(items: seq<Item>)

  /** `polls` is history: every poll so far. */
  class Poller {
    const enabled: bool
    const telemetry: Store
    var activeEvent: ActiveEvent
    ghost var polls: seq<Poll>

    ghost predicate Valid()
      reads this, telemetry
    {
      telemetry.Valid() && activeEvent == Cached(polls)
    }

    constructor (enabled: bool, telemetry: Store)
      requires telemetry.Valid()
      ensures Valid() && this.enabled == enabled && this.telemetry == telemetry && polls == []
    {
      this.enabled, this.telemetry, activeEvent, polls := enabled, telemetry, IDLE, [];
    }

    method GetCurrentEvent(now: int) returns (ev: ActiveEvent)
      ensures ev == CurrentEvent(activeEvent, now)
    {
      if activeEvent.idle || activeEvent.end == ZERO_TIME {
        return IDLE;
      }
      if now >= activeEvent.end {
        return IDLE;
      }
      if now < activeEvent.start {
        return IDLE;
      }
      ev := activeEvent;
      ev := ev.(countdown := FormatCountdown(TimeSub(ev.end, now)));
      ev := ev.(idle := false);
    }

    method HandlePollFailure(now: int, clock: int, err: Error)
      requires telemetry.Valid()
      modifies `activeEvent, telemetry
      ensures telemetry.Valid()
      ensures activeEvent == AfterFailure(old(activeEvent), now)
      ensures telemetry.View() == Apply(old(telemetry.View()),
                RecordCalendarPoll(false, ReportedSummary(activeEvent), clock, Some(err)))
    {
      hide Apply, FormatCountdown;
      var activeSummary := "";
      if !activeEvent.idle && activeEvent.end != ZERO_TIME {
        if now >= activeEvent.end {
          activeEvent := IDLE;
        } else {
          activeEvent := activeEvent.(countdown := FormatCountdown(TimeSub(activeEvent.end, now)));
          activeSummary := activeEvent.summary;
        }
      }
      telemetry.RecordCalendarPoll(false, activeSummary, clock, Some(err));
    }

    /** The events of the items that pass the filter, in the order of the response. */
    method Filter(items: seq<Item>, email: string, now: int) returns (activeEvents: seq<ActiveEvent>)
      ensures activeEvents == Candidates(items, email, now)
    {
      hide EqualFold, Declined, FormatCountdown;
      activeEvents := [];
      var i := 0;
      while i < |items|
        invariant 0 <= i <= |items|
        invariant activeEvents == Candidates(items[..i], email, now)
      {
        var item := items[i];
        assert items[..i + 1][..i] == items[..i];
        i := i + 1;
        if EqualFold(item.status, "cancelled") {
          continue;
        }
        if EqualFold(item.transparency, "transparent") {
          continue;
        }
        if item.start.Missing? || item.end.Missing? {
          continue;
        }
        if item.start.Malformed? {
          continue;
        }
        if item.end.Malformed? {
          continue;
        }
        var declined := IsDeclined(item.attendees, email);
        if declined {
          continue;
        }
        if (now == item.start.at || now > item.start.at) && now < item.end.at {
          activeEvents := activeEvents + [ActiveEvent(item.summary, item.start.at, item.end.at,
                                                      FormatCountdown(TimeSub(item.end.at, now)), false)];
        }
      }
      assert items[..i] == items;
    }

    /** `binding` is the bound account's email; `clock` the ledger's own reading of the time. */
    method PollOnce(now: int, clock: int, binding: Option<string>, response: Response) returns (ok: bool)
      requires Valid()
      modifies this, telemetry
      ensures Valid()
      ensures !enabled || binding.None? ==>
        ok && polls == old(polls) + [Dormant] && telemetry.View() == old(telemetry.View())
      ensures enabled && binding.Some? && response.Failed? ==>
        && !ok && polls == old(polls) + [Outage(now)]
        && telemetry.View() == Apply(old(telemetry.View()),
             RecordCalendarPoll(false, ReportedSummary(activeEvent), clock, Some(response.error)))
      ensures enabled && binding.Some? && response.Listed? ==>
        && ok && polls == old(polls) + [Answer(now, activeEvent)]
        && Chosen(activeEvent, response.items, binding.value, now)
        && (if forall item :: item in response.items ==> !IsOn(item, binding.value, now) then activeEvent == IDLE
            else exists item :: Shows(activeEvent, item, response.items, binding.value, now))
        && telemetry.View() == Apply(old(telemetry.View()), RecordCalendarPoll(true, activeEvent.summary, clock, None))
    {
      hide Apply, Chosen, Candidates, FormatCountdown, IsOn, Shows;
      if !enabled || binding.None? {
        activeEvent := IDLE;
        polls := polls + [Dormant];
        return true;
      }
      if response.Failed? {
        HandlePollFailure(now, clock, response.error);
        polls := polls + [Outage(now)];
        assert polls[..|polls| - 1] == old(polls);
        return false;
      }
      var activeEvents := Filter(response.items, binding.value, now);
      if |activeEvents| == 0 {
        HeadIsChosen(response.items, binding.value, now, []);
        ChosenMeans(IDLE, response.items, binding.value, now);
        activeEvent := IDLE;
        polls := polls + [Answer(now, IDLE)];
        telemetry.RecordCalendarPoll(true, "", clock, None);
        return true;
      }
      var sorted := SortSlice(activeEvents);
      HeadIsChosen(response.items, binding.value, now, sorted);
      SameElements(sorted, activeEvents);
      var winner := sorted[0];
      ChosenMeans(winner, response.items, binding.value, now);
      activeEvent := winner;
      polls := polls + [Answer(now, winner)];
      telemetry.RecordCalendarPoll(true, winner.summary, clock, None);
      ok := true;
    }
  }
}
