/** FormatCountdown of internal/calendar/poller.go: a duration in nanoseconds as ceiling-rounded HH:MM. */
module Countdown {
  import opened Basics

  const MINUTE: int := 60_000_000_000

  function Digit(n: nat): char
    requires n < 10
  {
    '0' + n as char
  }

  function Digits(n: nat): string {
    if n < 10 then [Digit(n)] else Digits(n / 10) + [Digit(n % 10)]
  }

  /** %02d: the sign counts toward the width. */
  function Pad2(n: int): string {
    if n < 0 then "-" + Digits(-n)
    else if n < 10 then "0" + Digits(n)
    else Digits(n)
  }

  function TotalMinutes(remaining: int): int {
    TruncDiv(Wrap64(remaining + MINUTE - 1), MINUTE)
  }

  function FormatCountdown(remaining: int): string {
    if remaining <= 0 then "00:00"
    else
      var totalMinutes := TotalMinutes(remaining);
      var hours := TruncDiv(totalMinutes, 60);
      var minutes := TruncMod(totalMinutes, 60);
      Pad2(hours) + ":" + Pad2(minutes)
  }

  // ---- Reading it back ----

  predicate IsDigit(c: char) {
    '0' <= c <= '9'
  }

  function ParseNat(s: string): Option<nat> {
    if s == [] || !IsDigit(s[|s| - 1]) then None
    else
      var last := (s[|s| - 1] - '0') as nat;
      if |s| == 1 then Some(last)
      else
        match ParseNat(s[..|s| - 1])
        case None => None
        case Some(n) => Some(10 * n + last)
  }

  /** The minutes an HH:MM text stands for: two digits of minutes, below 60, after the colon. */
  function ParseClock(s: string): Option<nat> {
    if |s| < 5 || s[|s| - 3] != ':' then None
    else
      match (ParseNat(s[..|s| - 3]), ParseNat(s[|s| - 2..]))
      case (Some(hours), Some(minutes)) => if minutes < 60 then Some(60 * hours + minutes) else None
      case _ => None
  }

  lemma {:induction false} DigitsParse(n: nat)
    ensures ParseNat(Digits(n)) == Some(n)
    ensures forall c :: c in Digits(n) ==> IsDigit(c)
  {
    if n >= 10 {
      DigitsParse(n / 10);
      assert Digits(n)[..|Digits(n)| - 1] == Digits(n / 10);
    }
  }

  lemma Pad2Parses(n: nat)
    ensures ParseNat(Pad2(n)) == Some(n)
    ensures |Pad2(n)| >= 2 && (n < 100 ==> |Pad2(n)| == 2)
    ensures forall c :: c in Pad2(n) ==> IsDigit(c)
  {
    DigitsParse(n);
    if n < 10 {
      assert Pad2(n)[..1] == "0";
      assert ParseNat("0") == Some(0);
    } else if n < 100 {
      assert Digits(n) == [Digit(n / 10)] + [Digit(n % 10)];
    } else {
      assert |Digits(n / 10)| >= 1;
    }
  }

  lemma {:induction false} DigitsLength(n: nat, bound: nat, k: nat)
    requires bound == Power10(k) && n < bound && k >= 1
    ensures |Digits(n)| <= k
  {
    if n >= 10 {
      DigitsLength(n / 10, Power10(k - 1), k - 1);
    }
  }

  function Power10(k: nat): nat {
    if k == 0 then 1 else 10 * Power10(k - 1)
  }

  lemma SignIsNotADigit(s: string)
    requires s != [] && s[0] == '-'
    ensures ParseNat(s).None?
  {
    if |s| > 1 {
      SignIsNotADigit(s[..|s| - 1]);
    }
  }

  // ---- What the text means ----

  /** The number of whole minutes that covers the duration. */
  function CeilMinutes(d: int): int
    requires d > 0
  {
    (d + MINUTE - 1) / MINUTE
  }

  lemma CeilMinutesIsLeast(d: int)
    requires d > 0
    ensures CeilMinutes(d) >= 1
    ensures MINUTE * CeilMinutes(d) >= d
    ensures MINUTE * (CeilMinutes(d) - 1) < d
  {
  }

  const LAST_EXACT: int := MAX_INT64 - (MINUTE - 1)

  lemma ClockOf(hours: nat, minutes: nat)
    requires minutes < 60
    ensures ParseClock(Pad2(hours) + ":" + Pad2(minutes)) == Some(60 * hours + minutes)
  {
    Pad2Parses(hours);
    Pad2Parses(minutes);
    var s := Pad2(hours) + ":" + Pad2(minutes);
    assert s[..|s| - 3] == Pad2(hours) && s[|s| - 2..] == Pad2(minutes);
  }

  lemma TotalMinutesIsCeil(d: int)
    requires 0 < d <= MAX_INT64
    ensures d <= LAST_EXACT ==> TotalMinutes(d) == CeilMinutes(d)
    ensures d > LAST_EXACT ==> -153_722_867 <= TotalMinutes(d) <= -153_722_866
  {
  }

  /** The text of a duration in range, from its minutes. */
  lemma InRangeText(d: int)
    requires 0 < d <= LAST_EXACT
    ensures CeilMinutes(d) >= 1
    ensures FormatCountdown(d) == Pad2(CeilMinutes(d) / 60) + ":" + Pad2(CeilMinutes(d) % 60)
    ensures ParseClock(FormatCountdown(d)) == Some(CeilMinutes(d))
  {
    hide TotalMinutes, CeilMinutes, Pad2, ParseClock;
    TotalMinutesIsCeil(d);
    CeilMinutesIsLeast(d);
    ClockOf(CeilMinutes(d) / 60, CeilMinutes(d) % 60);
  }

  lemma OverflowText(d: int)
    requires LAST_EXACT < d <= MAX_INT64
    ensures FormatCountdown(d)[0] == '-' && ParseClock(FormatCountdown(d)).None?
  {
    hide TotalMinutes, ParseNat, Digits;
    TotalMinutesIsCeil(d);
    var s := FormatCountdown(d);
    assert TruncDiv(TotalMinutes(d), 60) < 0;
    if |s| >= 5 {
      SignIsNotADigit(s[..|s| - 3]);
    }
  }

  /** The printed text reads back as the ceiling of the duration in minutes exactly for the durations whose
      rounding does not overflow int64; past that the hours are printed with a minus sign. */
  lemma CountdownReadsBack(d: int)
    requires 0 < d <= MAX_INT64
    ensures ParseClock(FormatCountdown(d)) == Some(CeilMinutes(d)) <==> d <= LAST_EXACT
    ensures d > LAST_EXACT ==> FormatCountdown(d)[0] == '-'
  {
    hide FormatCountdown, ParseClock, CeilMinutes;
    if d <= LAST_EXACT {
      InRangeText(d);
    } else {
      OverflowText(d);
    }
  }

  lemma OverflowDoesNotRead(d: int)
    requires 0 < d <= MAX_INT64
    ensures d > LAST_EXACT ==> ParseClock(FormatCountdown(d)).None?
  {
    hide FormatCountdown, ParseClock;
    if d > LAST_EXACT {
      OverflowText(d);
    }
  }

  /** Two durations in range print alike exactly when they take as many minutes, and a longer one never reads
      back as less. */
  lemma CountdownIsMonotone(d: int, e: int)
    requires 0 < d <= e <= LAST_EXACT
    ensures FormatCountdown(d) == FormatCountdown(e) <==> CeilMinutes(d) == CeilMinutes(e)
    ensures ParseClock(FormatCountdown(d)).Some? && ParseClock(FormatCountdown(e)).Some?
    ensures ParseClock(FormatCountdown(d)).value <= ParseClock(FormatCountdown(e)).value
  {
    hide FormatCountdown, ParseClock, Pad2;
    InRangeText(d);
    InRangeText(e);
  }

  /** The text is short and free of spaces for every duration, so the display never trims or cuts it. */
  lemma CountdownFits(d: int)
    requires IsInt64(d)
    ensures var s := FormatCountdown(d);
            && 5 <= |s| <= 12 && (d <= LAST_EXACT ==> |s| <= 10)
            && (forall c :: c in s ==> IsDigit(c) || c == ':' || c == '-')
  {
    if d > 0 {
      TotalMinutesIsCeil(d);
      hide TotalMinutes;
      var total := TotalMinutes(d);
      if d <= LAST_EXACT {
        Pad2Parses(total / 60);
        Pad2Parses(total % 60);
        DigitsLength(total / 60, Power10(7), 7);
      } else {
        DigitsParse(-TruncDiv(total, 60));
        DigitsParse(-TruncMod(total, 60));
        DigitsLength(-TruncDiv(total, 60), Power10(7), 7);
        DigitsLength(-TruncMod(total, 60), Power10(2), 2);
        assert total == -153_722_867 || total == -153_722_866;
        assert TruncDiv(total, 60) == -2_562_047;
      }
    }
  }

  lemma TrimKeepsSolidText(s: string)
    requires s != [] && !IsSpace(s[0]) && !IsSpace(s[|s| - 1])
    ensures TrimSpace(s) == s
  {
  }

  lemma CountdownIsNotTrimmed(d: int)
    requires IsInt64(d)
    ensures TrimSpace(FormatCountdown(d)) == FormatCountdown(d)
  {
    CountdownFits(d);
    hide FormatCountdown;
    var s := FormatCountdown(d);
    assert s[0] in s && s[|s| - 1] in s;
    TrimKeepsSolidText(s);
  }

  /** Nothing left is 00:00, and only that is. */
  lemma NothingLeftIsZero(d: int)
    requires d <= LAST_EXACT
    ensures FormatCountdown(d) == "00:00" <==> d <= 0
  {
    if d > 0 {
      hide FormatCountdown, ParseClock, CeilMinutes;
      InRangeText(d);
      ZeroClock();
    }
  }

  lemma ZeroClock()
    ensures ParseClock("00:00") == Some(0)
  {
    ClockOf(0, 0);
    assert Pad2(0) == "00" && "00" + ":" + "00" == "00:00";
  }
}
