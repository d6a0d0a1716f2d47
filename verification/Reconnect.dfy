/** The reconnection loop of internal/busybar/client.go: backoff, its reset, and the sleeps.  Durations are
    nanoseconds and the multiplier is the rational num / den. */
module Reconnect {
  import opened Basics

  const STABLE_THRESHOLD: int := 30_000_000_000

  datatype Config = Config(initial: int, max: int, num: int, den: int)
  {
    /** NewClient replaces every non-positive value. */
    predicate Valid() {
      initial > 0 && max > 0 && num > 0 && den > 0
    }
  }

  /** A random number in [0, 1). */
  datatype Jitter = Jitter(num: nat, den: nat)
  {
    predicate Valid() { num < den }
  }

  /** What one turn of the loop meets: the context, the connection and its times, the jitter, the sleep. */
  datatype Turn = Turn(doneBefore: bool, connectStart: int, failed: bool, connectedAt: Option<int>,
                       disconnectedAt: int, doneAfter: bool, jitter: Jitter, sleepCut: bool)

  function Scale(cfg: Config, x: int): int
    requires cfg.den > 0
  {
    TruncDiv(x * cfg.num, cfg.den)
  }

  function NextBackoff(cfg: Config, current: int): int
    requires cfg.den > 0
  {
    if Scale(cfg, current) > cfg.max then cfg.max else Scale(cfg, current)
  }

  function CalculateBackoff(current: int, max: int, jitter: Jitter): (sleep: int)
    requires jitter.Valid()
  {
    var effective := if max > 0 && current > max then max else current;
    if effective <= 0 then 0 else effective * jitter.num / jitter.den
  }

  /** A sleep is never longer than the delay or the maximum. */
  lemma SleepIsBounded(current: int, max: int, jitter: Jitter)
    requires jitter.Valid() && current >= 0 && max > 0
    ensures 0 <= CalculateBackoff(current, max, jitter) <= Min(current, max)
  {
    var effective := Min(current, max);
    if effective > 0 {
      ProductAtMost(effective, jitter.num, jitter.den);
      DivAtMost(effective * jitter.num, jitter.den, effective);
    }
  }

  lemma ProductAtMost(x: int, a: nat, b: nat)
    requires x >= 0 && a <= b
    ensures 0 <= x * a <= x * b
  {
  }

  lemma OrderFromProducts(b: int, x: int, y: int)
    requires b > 0 && b * x <= b * y
    ensures x <= y
  {
  }

  lemma StrictOrderFromProducts(b: int, x: int, y: int)
    requires b > 0 && b * x < b * y
    ensures x < y
  {
  }

  lemma DivAtMost(p: int, b: int, x: int)
    requires b > 0 && 0 <= p <= x * b
    ensures 0 <= p / b <= x
  {
    assert b * (p / b) <= p;
    OrderFromProducts(b, p / b, x);
  }

  lemma DivAtLeast(p: int, b: int, x: int)
    requires b > 0 && p >= x * b
    ensures p / b >= x
  {
    assert p < b * (p / b) + b;
    assert b * (p / b) + b == b * (p / b + 1);
    StrictOrderFromProducts(b, x, p / b + 1);
  }

  function Uptime(t: Turn): int {
    if t.connectedAt.Some? then t.disconnectedAt - t.connectedAt.value
    else if !t.failed then t.disconnectedAt - t.connectStart
    else 0
  }

  function Threshold(configured: int): int {
    if configured <= 0 then STABLE_THRESHOLD else configured
  }

  predicate Stable(t: Turn, threshold: int) {
    Uptime(t) >= Threshold(threshold)
  }

  /** The delay of turn `i`, before jitter: the reset is decided first, the growth applies to the next turn. */
  function Delay(cfg: Config, threshold: int, turns: seq<Turn>, i: nat): int
    requires cfg.Valid() && i < |turns|
  {
    if Stable(turns[i], threshold) || i == 0 then cfg.initial
    else NextBackoff(cfg, Delay(cfg, threshold, turns, i - 1))
  }

  class Client {
    const cfg: Config
    const stableThreshold: int
    var connected: bool
    var reconnectCount: nat
    var lastDisconnectedAt: int
    var backoffDelay: int

    constructor (cfg: Config, stableThreshold: int)
      ensures this.cfg == cfg && this.stableThreshold == stableThreshold
      ensures !connected && reconnectCount == 0 && backoffDelay == cfg.initial
    {
      this.cfg, this.stableThreshold := cfg, stableThreshold;
      connected, reconnectCount, lastDisconnectedAt, backoffDelay := false, 0, 0, cfg.initial;
    }

    /** run, for as many turns as the oracle has; `delays` and `sleeps` are what it asked for.  Turn i's delay is
        Delay(i), its sleep is cut from it by the turn's jitter, and every turn that connects is counted. */
    method Run(turns: seq<Turn>) returns (delays: seq<int>, sleeps: seq<int>, connects: nat)
      requires cfg.Valid()
      requires forall i :: 0 <= i < |turns| ==> turns[i].jitter.Valid()
      modifies this
      ensures |delays| == |sleeps| <= connects <= |turns| && connects <= |delays| + 1
      ensures forall i :: 0 <= i < connects ==> !turns[i].doneBefore
      ensures forall i :: 0 <= i < |delays| ==> !turns[i].doneAfter
      ensures forall i :: 0 <= i < connects - 1 ==> !turns[i].sleepCut
      ensures connects > |delays| ==> turns[connects - 1].doneAfter
      ensures connects == |delays| < |turns| ==>
                turns[connects].doneBefore || (connects > 0 && turns[connects - 1].sleepCut)
      ensures forall i :: 0 <= i < |delays| ==> delays[i] == Delay(cfg, stableThreshold, turns, i)
      ensures forall i :: 0 <= i < |sleeps| ==> sleeps[i] == CalculateBackoff(delays[i], cfg.max, turns[i].jitter)
      ensures reconnectCount == old(reconnectCount) + connects
      ensures connects > 0 ==> !connected && lastDisconnectedAt == turns[connects - 1].disconnectedAt
      ensures delays != [] ==> backoffDelay == delays[|delays| - 1]
    {
      hide NextBackoff, CalculateBackoff, Stable;
      var currentBackoff := cfg.initial;
      delays, sleeps, connects := [], [], 0;
      while connects < |turns|
        invariant |delays| == |sleeps| == connects <= |turns|
        invariant forall i :: 0 <= i < connects ==>
                    !turns[i].doneBefore && !turns[i].doneAfter && !turns[i].sleepCut
        invariant currentBackoff == if connects == 0 then cfg.initial
                                    else NextBackoff(cfg, Delay(cfg, stableThreshold, turns, connects - 1))
        invariant forall i :: 0 <= i < connects ==> delays[i] == Delay(cfg, stableThreshold, turns, i)
        invariant forall i :: 0 <= i < connects ==> sleeps[i] == CalculateBackoff(delays[i], cfg.max, turns[i].jitter)
        invariant reconnectCount == old(reconnectCount) + connects
        invariant connects > 0 ==> !connected && lastDisconnectedAt == turns[connects - 1].disconnectedAt
        invariant connects > 0 ==> backoffDelay == delays[connects - 1]
      {
        var t := turns[connects];
        if t.doneBefore {
          return;
        }
        connected := t.connectedAt.Some?;
        connects := connects + 1;
        connected := false;
        lastDisconnectedAt := t.disconnectedAt;
        reconnectCount := reconnectCount + 1;
        if t.doneAfter {
          return;
        }
        if Stable(t, stableThreshold) {
          currentBackoff := cfg.initial;
        }
        backoffDelay := currentBackoff;
        delays := delays + [currentBackoff];
        sleeps := sleeps + [CalculateBackoff(currentBackoff, cfg.max, t.jitter)];
        currentBackoff := NextBackoff(cfg, currentBackoff);
        if t.sleepCut {
          return;
        }
      }
    }
  }

  // ---- The law ----

  /** Turns since the last stable one, or since the start. */
  function DropsSinceReset(turns: seq<Turn>, threshold: int, i: nat): nat
    requires i < |turns|
  {
    if i == 0 || Stable(turns[i], threshold) then 0 else DropsSinceReset(turns, threshold, i - 1) + 1
  }

  /** The initial delay scaled n times, without a cap. */
  function Uncapped(cfg: Config, n: nat): int
    requires cfg.Valid()
  {
    if n == 0 then cfg.initial else Scale(cfg, Uncapped(cfg, n - 1))
  }

  lemma ScaleGrows(cfg: Config, x: int)
    requires cfg.Valid() && cfg.num >= cfg.den && x >= 0
    ensures Scale(cfg, x) >= x
  {
    ProductAtMost(x, cfg.den, cfg.num);
    DivAtLeast(x * cfg.num, cfg.den, x);
  }

  lemma DivBelow(p: int, b: int, x: int)
    requires b > 0 && p < x * b
    ensures p / b < x
  {
    assert b * (p / b) <= p;
    StrictOrderFromProducts(b, p / b, x);
  }

  lemma ProductBelow(x: int, a: int, b: int)
    requires x > 0 && a < b
    ensures x * a < x * b
  {
  }

  lemma ScaleShrinks(cfg: Config, x: int)
    requires cfg.Valid() && cfg.num < cfg.den && x >= 0
    ensures 0 <= Scale(cfg, x) <= x
    ensures x > 0 ==> Scale(cfg, x) < x
  {
    ProductAtMost(x, cfg.num, cfg.den);
    DivAtMost(x * cfg.num, cfg.den, x);
    if x > 0 {
      ProductBelow(x, cfg.num, cfg.den);
      DivBelow(x * cfg.num, cfg.den, x);
    }
  }

  lemma {:induction false} UncappedIsTame(cfg: Config, n: nat)
    requires cfg.Valid()
    ensures Uncapped(cfg, n) >= 0
    ensures cfg.num < cfg.den ==> Uncapped(cfg, n) <= cfg.initial
  {
    hide Scale;
    if n > 0 {
      UncappedIsTame(cfg, n - 1);
      if cfg.num < cfg.den {
        ScaleShrinks(cfg, Uncapped(cfg, n - 1));
      } else {
        ScaleGrows(cfg, Uncapped(cfg, n - 1));
      }
    }
  }

  lemma NextOfCapped(cfg: Config, n: nat)
    requires cfg.Valid() && cfg.initial <= cfg.max
    ensures NextBackoff(cfg, Min(cfg.max, Uncapped(cfg, n))) == Min(cfg.max, Uncapped(cfg, n + 1))
  {
    hide Scale;
    UncappedIsTame(cfg, n);
    if Uncapped(cfg, n) > cfg.max {
      ScaleGrows(cfg, cfg.max);
      ScaleGrows(cfg, Uncapped(cfg, n));
    }
  }

  /** For any positive multiplier: after n drops since the last reset the delay is min(Max, fⁿ(Initial)) with
      f(x) = ⌊x·m⌋, in every run, exactly when Initial is at most Max; and it is Initial itself after a reset. */
  lemma {:induction false} BackoffLaw(cfg: Config, threshold: int, turns: seq<Turn>, i: nat)
    requires cfg.Valid() && i < |turns|
    ensures var n := DropsSinceReset(turns, threshold, i);
            && (cfg.initial <= cfg.max ==> Delay(cfg, threshold, turns, i) == Min(cfg.max, Uncapped(cfg, n)))
            && (n == 0 ==> Delay(cfg, threshold, turns, i) == cfg.initial)
            && (n == 0 ==>
                  (Delay(cfg, threshold, turns, i) == Min(cfg.max, Uncapped(cfg, n)) <==> cfg.initial <= cfg.max))
  {
    hide NextBackoff, Stable, Scale;
    if i > 0 {
      BackoffLaw(cfg, threshold, turns, i - 1);
      if !Stable(turns[i], threshold) && cfg.initial <= cfg.max {
        NextOfCapped(cfg, DropsSinceReset(turns, threshold, i - 1));
      }
    }
  }

  /** Every sleep of every run is within its delay and the maximum. */
  lemma {:induction false} EverySleepIsBounded(cfg: Config, threshold: int, turns: seq<Turn>, i: nat, jitter: Jitter)
    requires cfg.Valid() && i < |turns| && jitter.Valid()
    ensures Delay(cfg, threshold, turns, i) >= 0
    ensures 0 <= CalculateBackoff(Delay(cfg, threshold, turns, i), cfg.max, jitter)
              <= Min(Delay(cfg, threshold, turns, i), cfg.max)
  {
    hide CalculateBackoff, Scale, Stable;
    if i > 0 {
      EverySleepIsBounded(cfg, threshold, turns, i - 1, jitter);
      var d := Delay(cfg, threshold, turns, i - 1);
      if cfg.num < cfg.den {
        ScaleShrinks(cfg, d);
      } else {
        ScaleGrows(cfg, d);
      }
    }
    SleepIsBounded(Delay(cfg, threshold, turns, i), cfg.max, jitter);
  }

  /** Between resets the delays never decrease exactly when the multiplier is at least one: a smaller one makes
      the second delay shorter than the first. */
  lemma DelaysGrowIff(cfg: Config)
    requires cfg.Valid() && cfg.initial <= cfg.max
    ensures (forall d :: 0 < d <= cfg.max ==> NextBackoff(cfg, d) >= d) <==> cfg.num >= cfg.den
    ensures cfg.num < cfg.den ==> NextBackoff(cfg, cfg.initial) < cfg.initial
  {
    hide Scale;
    if cfg.num >= cfg.den {
      forall d | 0 < d <= cfg.max
        ensures NextBackoff(cfg, d) >= d
      {
        ScaleGrows(cfg, d);
      }
    } else {
      ScaleShrinks(cfg, cfg.initial);
      assert NextBackoff(cfg, cfg.initial) < cfg.initial;
    }
  }

  /** So in every run a turn that is not stable never waits less than the one before it. */
  lemma DelaysNeverShrink(cfg: Config, threshold: int, turns: seq<Turn>, i: nat)
    requires cfg.Valid() && cfg.initial <= cfg.max && cfg.num >= cfg.den
    requires i + 1 < |turns| && !Stable(turns[i + 1], threshold)
    ensures Delay(cfg, threshold, turns, i) <= Delay(cfg, threshold, turns, i + 1) <= cfg.max
  {
    hide Scale, Stable;
    var n := DropsSinceReset(turns, threshold, i);
    BackoffLaw(cfg, threshold, turns, i);
    BackoffLaw(cfg, threshold, turns, i + 1);
    UncappedIsTame(cfg, n);
    ScaleGrows(cfg, Uncapped(cfg, n));
  }

  lemma DivIsMonotone(p: int, q: int, b: int)
    requires b > 0 && 0 <= p <= q
    ensures 0 <= p / b <= q / b
  {
    DivAtLeast(q, b, p / b);
  }

  lemma ScaleIsMonotone(cfg: Config, x: int, y: int)
    requires cfg.Valid() && 0 <= x <= y
    ensures 0 <= Scale(cfg, x) <= Scale(cfg, y)
  {
    ProductAtMost(cfg.num, x, y);
    DivIsMonotone(x * cfg.num, y * cfg.num, cfg.den);
  }

  /** A product whose quotient exceeds i leaves a gain of at least den at i, and hence at every x >= i. */
  lemma GainAt(i: int, num: int, den: int)
    requires i > 0 && den > 0 && i * num / den >= i + 1
    ensures num > den && i * (num - den) >= den
  {
    var q := i * num / den;
    assert den * q <= i * num;
    ProductAtMost(den, i + 1, q);
    assert den * (i + 1) == i * den + den;
    assert i * (num - den) == i * num - i * den;
    StrictOrderFromProducts(i, 0, num - den);
  }

  lemma GainFrom(i: int, x: int, num: int, den: int)
    requires 0 < i <= x && den > 0 && num > den && i * (num - den) >= den
    ensures x * num >= (x + 1) * den
  {
    ProductAtMost(num - den, i, x);
    assert x * (num - den) >= den;
    assert x * (num - den) == x * num - x * den;
  }

  lemma ScaleStep(cfg: Config, x: int)
    requires cfg.Valid() && x >= cfg.initial
    ensures Scale(cfg, cfg.initial) > cfg.initial ==> Scale(cfg, x) >= x + 1
  {
    if Scale(cfg, cfg.initial) > cfg.initial {
      GainAt(cfg.initial, cfg.num, cfg.den);
      GainFrom(cfg.initial, x, cfg.num, cfg.den);
      DivAtLeast(x * cfg.num, cfg.den, x + 1);
    }
  }

  lemma {:induction false} UncappedClimbs(cfg: Config, n: nat)
    requires cfg.Valid() && Scale(cfg, cfg.initial) > cfg.initial
    ensures Uncapped(cfg, n) >= cfg.initial + n
  {
    hide Scale;
    if n > 0 {
      UncappedClimbs(cfg, n - 1);
      ScaleStep(cfg, Uncapped(cfg, n - 1));
    }
  }

  lemma {:induction false} UncappedStays(cfg: Config, n: nat)
    requires cfg.Valid() && Scale(cfg, cfg.initial) == cfg.initial
    ensures Uncapped(cfg, n) == cfg.initial
  {
    hide Scale;
    if n > 0 {
      UncappedStays(cfg, n - 1);
    }
  }

  /** For a multiplier of at least one, Max - Initial drops in a row reach Max exactly when the first step grows
      the delay or it is at Max already; otherwise truncation holds it at Initial for ever. */
  lemma MaxIsReachedIff(cfg: Config)
    requires cfg.Valid() && cfg.initial <= cfg.max && cfg.num >= cfg.den
    ensures Min(cfg.max, Uncapped(cfg, cfg.max - cfg.initial)) == cfg.max
            <==> Scale(cfg, cfg.initial) > cfg.initial || cfg.initial == cfg.max
    ensures Scale(cfg, cfg.initial) == cfg.initial ==> forall n: nat :: Uncapped(cfg, n) == cfg.initial
  {
    hide Scale;
    ScaleGrows(cfg, cfg.initial);
    if Scale(cfg, cfg.initial) > cfg.initial {
      UncappedClimbs(cfg, cfg.max - cfg.initial);
    } else {
      forall n: nat
        ensures Uncapped(cfg, n) == cfg.initial
      {
        UncappedStays(cfg, n);
      }
    }
  }

  // ---- Runs that only fail ----

  const FAILED := Turn(false, 0, true, None, 0, false, Jitter(0, 1), false)

  function Failures(n: nat): (turns: seq<Turn>)
    ensures |turns| == n && forall i :: 0 <= i < n ==> turns[i] == FAILED
  {
    seq(n, _ => FAILED)
  }

  lemma {:induction false} DropsOfFailures(n: nat, threshold: int, i: nat)
    requires i < n
    ensures DropsSinceReset(Failures(n), threshold, i) == i
  {
    if i > 0 {
      DropsOfFailures(n, threshold, i - 1);
    }
  }

  // ---- Only a reset gives the initial delay ----

  /** When no delay up to Initial grows back to it, every delay after a drop is below Initial. */
  lemma {:induction false} DelaysStayBelow(cfg: Config, threshold: int, turns: seq<Turn>, i: nat)
    requires cfg.Valid() && i < |turns|
    requires forall d :: 0 <= d <= cfg.initial ==> 0 <= NextBackoff(cfg, d) < cfg.initial
    ensures 0 <= Delay(cfg, threshold, turns, i) <= cfg.initial
    ensures DropsSinceReset(turns, threshold, i) > 0 ==> Delay(cfg, threshold, turns, i) < cfg.initial
  {
    hide NextBackoff, Stable;
    if i > 0 {
      DelaysStayBelow(cfg, threshold, turns, i - 1);
    }
  }

  lemma NextIsBelow(cfg: Config, d: int)
    requires cfg.Valid() && 0 <= d <= cfg.initial && (cfg.num < cfg.den || cfg.max < cfg.initial)
    ensures 0 <= NextBackoff(cfg, d) < cfg.initial
  {
    hide Scale;
    if cfg.num < cfg.den {
      ScaleShrinks(cfg, d);
    } else {
      ScaleGrows(cfg, d);
    }
  }

  lemma AfterADrop(cfg: Config, threshold: int, turns: seq<Turn>, i: nat)
    requires cfg.Valid() && i < |turns| && DropsSinceReset(turns, threshold, i) > 0
    requires NextBackoff(cfg, cfg.initial) != cfg.initial
    ensures Delay(cfg, threshold, turns, i) != cfg.initial
  {
    hide Stable, Scale;
    if cfg.num < cfg.den || cfg.max < cfg.initial {
      forall d | 0 <= d <= cfg.initial ensures 0 <= NextBackoff(cfg, d) < cfg.initial {
        NextIsBelow(cfg, d);
      }
      DelaysStayBelow(cfg, threshold, turns, i);
    } else {
      ScaleGrows(cfg, cfg.initial);
      BackoffLaw(cfg, threshold, turns, i);
      UncappedClimbs(cfg, DropsSinceReset(turns, threshold, i));
    }
  }

  /** In every run the delay is Initial on exactly the turns that reset it, if and only if the first step away from
      Initial changes it. */
  lemma InitialMeansResetIff(cfg: Config, threshold: int)
    requires cfg.Valid()
    ensures (forall turns, i: nat :: i < |turns| ==>
               (Delay(cfg, threshold, turns, i) == cfg.initial <==> DropsSinceReset(turns, threshold, i) == 0))
        <==> NextBackoff(cfg, cfg.initial) != cfg.initial
  {
    hide NextBackoff, Stable;
    if NextBackoff(cfg, cfg.initial) != cfg.initial {
      forall turns, i: nat | i < |turns|
        ensures Delay(cfg, threshold, turns, i) == cfg.initial <==> DropsSinceReset(turns, threshold, i) == 0
      {
        BackoffLaw(cfg, threshold, turns, i);
        if DropsSinceReset(turns, threshold, i) > 0 {
          AfterADrop(cfg, threshold, turns, i);
        }
      }
    } else {
      SecondFailure(cfg, threshold);
    }
  }

  lemma SecondFailure(cfg: Config, threshold: int)
    requires cfg.Valid()
    ensures DropsSinceReset(Failures(2), threshold, 1) == 1
    ensures Delay(cfg, threshold, Failures(2), 1) == NextBackoff(cfg, cfg.initial)
  {
    DropsOfFailures(2, threshold, 1);
    hide NextBackoff;
  }

  // ---- When the products fit int64 ----

  lemma {:induction false} DelayIsCapped(cfg: Config, threshold: int, turns: seq<Turn>, i: nat)
    requires cfg.Valid() && i < |turns|
    ensures 0 <= Delay(cfg, threshold, turns, i) <= if cfg.initial <= cfg.max then cfg.max else cfg.initial
  {
    hide Scale, Stable;
    if i > 0 {
      DelayIsCapped(cfg, threshold, turns, i - 1);
      ScaleIsMonotone(cfg, 0, Delay(cfg, threshold, turns, i - 1));
    }
  }

  /** The largest delay scales within int64, or the delay never leaves Initial. */
  predicate ProductsFit(cfg: Config)
    requires cfg.Valid()
  {
    || Scale(cfg, if cfg.initial <= cfg.max then cfg.max else cfg.initial) <= MAX_INT64
    || (Scale(cfg, cfg.initial) == cfg.initial && cfg.initial < cfg.max)
  }

  lemma FittingProducts(cfg: Config, threshold: int, turns: seq<Turn>, i: nat)
    requires cfg.Valid() && cfg.initial <= MAX_INT64 && i < |turns| && ProductsFit(cfg)
    ensures Scale(cfg, Delay(cfg, threshold, turns, i)) <= MAX_INT64
  {
    hide Scale, Stable;
    var top := if cfg.initial <= cfg.max then cfg.max else cfg.initial;
    if Scale(cfg, top) <= MAX_INT64 {
      DelayIsCapped(cfg, threshold, turns, i);
      ScaleIsMonotone(cfg, Delay(cfg, threshold, turns, i), top);
    } else {
      BackoffLaw(cfg, threshold, turns, i);
      UncappedStays(cfg, DropsSinceReset(turns, threshold, i));
    }
  }

  /** Enough failures reach the largest delay, unless the delay never leaves Initial. */
  lemma OverflowingRun(cfg: Config, threshold: int) returns (turns: seq<Turn>, i: nat)
    requires cfg.Valid() && cfg.max <= MAX_INT64 && !ProductsFit(cfg)
    ensures i < |turns| && Scale(cfg, Delay(cfg, threshold, turns, i)) > MAX_INT64
  {
    hide Scale, Stable;
    if cfg.initial > cfg.max {
      turns, i := Failures(1), 0;
    } else {
      if cfg.num < cfg.den {
        ScaleShrinks(cfg, cfg.max);
      }
      ScaleGrows(cfg, cfg.initial);
      i := cfg.max - cfg.initial;
      turns := Failures(i + 1);
      DropsOfFailures(i + 1, threshold, i);
      BackoffLaw(cfg, threshold, turns, i);
      MaxIsReachedIff(cfg);
    }
  }

  /** Every product of every run fits int64, so that none is converted as the platform pleases, if and only if
      the largest delay scales within int64 or truncation holds the delay at Initial. */
  lemma ProductsFitInt64Iff(cfg: Config, threshold: int)
    requires cfg.Valid() && cfg.initial <= MAX_INT64 && cfg.max <= MAX_INT64
    ensures (forall turns, i: nat :: i < |turns| ==> Scale(cfg, Delay(cfg, threshold, turns, i)) <= MAX_INT64)
        <==> ProductsFit(cfg)
  {
    hide Scale, Delay, ProductsFit;
    if ProductsFit(cfg) {
      forall turns, i: nat | i < |turns| ensures Scale(cfg, Delay(cfg, threshold, turns, i)) <= MAX_INT64 {
        FittingProducts(cfg, threshold, turns, i);
      }
    } else {
      var turns, i := OverflowingRun(cfg, threshold);
    }
  }

  // ---- The same in the fields of a turn ----

  /** The turn ends a connection that lasted the threshold (30 s if none is configured), counted from the moment it
      was established, or from the attempt if it was never seen established and ended without an error. */
  ghost predicate Lasted(t: Turn, threshold: int) {
    var limit := if threshold > 0 then threshold else 30_000_000_000;
    match t.connectedAt
    case Some(at) => t.disconnectedAt - at >= limit
    case None => !t.failed && t.disconnectedAt - t.connectStart >= limit
  }

  /** `n` is x * num / den rounded down, for x * num not negative. */
  lemma DivIsLargest(p: int, b: int, n: int)
    requires b > 0 && p >= 0
    ensures n == p / b <==> b * n <= p < b * n + b
  {
    assert p == b * (p / b) + p % b;
    if b * n <= p < b * n + b {
      assert b * (n + 1) == b * n + b && b * (p / b + 1) == b * (p / b) + b;
      StrictOrderFromProducts(b, n, p / b + 1);
      StrictOrderFromProducts(b, p / b, n + 1);
    }
  }

  /** The next delay is the largest number up to Max that is at most the delay times num / den. */
  lemma NextIsLargest(cfg: Config, d: int, n: int)
    requires cfg.Valid() && d >= 0
    ensures n == NextBackoff(cfg, d) <==>
              && n <= cfg.max && cfg.den * n <= d * cfg.num
              && (n < cfg.max ==> d * cfg.num < cfg.den * n + cfg.den)
  {
    ProductAtMost(d, 0, cfg.num);
    var p := d * cfg.num;
    DivIsLargest(p, cfg.den, p / cfg.den);
    DivIsLargest(p, cfg.den, n);
    if n == cfg.max {
      if cfg.den * n <= p {
        DivAtLeast(p, cfg.den, n);
      } else {
        DivBelow(p, cfg.den, n);
      }
      MultiplesOf(cfg.den, n);
    }
    if p / cfg.den > cfg.max {
      MultiplesOf(cfg.den, cfg.max);
      ProductAtMost(cfg.den, cfg.max + 1, p / cfg.den);
      assert cfg.den * (cfg.max + 1) == cfg.den * cfg.max + cfg.den;
      if n < cfg.max {
        NotAboveTwo(cfg.den, n, cfg.max);
      }
    }
  }

  lemma MultiplesOf(b: int, n: int)
    ensures n * b == b * n
  {
  }

  lemma NotAboveTwo(b: int, n: int, m: int)
    requires b > 0 && n < m
    ensures b * n + b <= b * m
  {
    assert b * (n + 1) == b * n + b;
    assert b * (m - (n + 1)) == b * m - b * (n + 1);
    if m - (n + 1) > 0 {
      ProductAtMost(b, 0, m - (n + 1));
    }
  }

  /** What turn `i` of any run asks for: Initial on the first turn and after a connection that lasted, otherwise the
      largest number up to Max within the previous delay times the multiplier; and the sleep is that delay, cut to
      Max, times the jitter, rounded down. */
  lemma TurnMeans(cfg: Config, threshold: int, turns: seq<Turn>, i: nat)
    requires cfg.Valid() && i < |turns| && turns[i].jitter.Valid()
    ensures var d := Delay(cfg, threshold, turns, i);
            && (i == 0 || Lasted(turns[i], threshold) ==> d == cfg.initial)
            && (i > 0 && !Lasted(turns[i], threshold) ==>
                  var before := Delay(cfg, threshold, turns, i - 1);
                  && d <= cfg.max && cfg.den * d <= before * cfg.num
                  && (d < cfg.max ==> before * cfg.num < cfg.den * d + cfg.den))
            && var sleep := CalculateBackoff(d, cfg.max, turns[i].jitter);
               turns[i].jitter.den * sleep <= Min(d, cfg.max) * turns[i].jitter.num
                                           < turns[i].jitter.den * sleep + turns[i].jitter.den
  {
    hide NextBackoff, Scale;
    DelayIsCapped(cfg, threshold, turns, i);
    var d := Delay(cfg, threshold, turns, i);
    SleepMeans(d, cfg.max, turns[i].jitter);
    if i > 0 {
      DelayIsCapped(cfg, threshold, turns, i - 1);
      var before := Delay(cfg, threshold, turns, i - 1);
      NextIsLargest(cfg, before, NextBackoff(cfg, before));
    }
  }

  lemma SleepMeans(current: int, max: int, jitter: Jitter)
    requires jitter.Valid() && current >= 0 && max > 0
    ensures var sleep := CalculateBackoff(current, max, jitter);
            jitter.den * sleep <= Min(current, max) * jitter.num < jitter.den * sleep + jitter.den
  {
    var effective := Min(current, max);
    ProductAtMost(effective, 0, jitter.num);
    DivIsLargest(effective * jitter.num, jitter.den, effective * jitter.num / jitter.den);
  }
}
