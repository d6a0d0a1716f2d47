/** What Go's float64 does to integers: a number read back from JSON into an interface{} is one. */
module Float64 {
  import opened Basics

  const MANTISSA: int := 0x20_0000_0000_0000

  /** The gap between a float64 of this magnitude and the next one up. */
  function Ulp(a: nat): (u: nat)
    ensures u >= 1
  {
    if a < MANTISSA then 1 else 2 * Ulp(a / 2)
  }

  /** Round to nearest, ties to even. */
  function RoundTo(a: nat, u: nat): nat
    requires u >= 1
  {
    var q, r := a / u, a % u;
    if 2 * r < u || (2 * r == u && q % 2 == 0) then q * u else (q + 1) * u
  }

  /** The integer value of float64(n). */
  function ToFloat64(n: int): int {
    var r: int := RoundTo(Abs(n), Ulp(Abs(n)));
    if n >= 0 then r else -r
  }

  predicate ExactInFloat64(n: int) {
    Abs(n) % Ulp(Abs(n)) == 0
  }

  function Trunc(r: real): int {
    if r >= 0.0 then r.Floor else -((-r).Floor)
  }

  /** What a conversion from float64 gives for a value outside int64. */
  type Platform = real -> int

  /** int64(r): what a value outside int64 becomes is up to the platform. */
  function ToInt64(r: real, platform: Platform): int {
    if IsInt64(Trunc(r)) then Trunc(r) else platform(r)
  }

  lemma TruncOfInt(n: int)
    ensures Trunc(n as real) == n
  {
    assert -(n as real) == (-n) as real;
  }

  // ---- The rounding is float64's ----

  lemma RoundToFixes(a: nat, u: nat)
    requires u >= 1
    ensures RoundTo(a, u) == a <==> a % u == 0
  {
    var q, r := a / u, a % u;
    assert a == q * u + r;
    assert (q + 1) * u == q * u + u;
  }

  /** A number survives the trip through float64 exactly when it is a multiple of the gap there;
      every |n| <= 2^53 does, and 2^53 + 1 is the first that does not. */
  lemma Float64Exactness(n: int)
    ensures ToFloat64(n) == n <==> ExactInFloat64(n)
    ensures -MANTISSA <= n <= MANTISSA ==> ExactInFloat64(n)
    ensures ToFloat64(MANTISSA + 1) == MANTISSA
  {
    RoundToFixes(Abs(n), Ulp(Abs(n)));
    assert Ulp(MANTISSA + 1) == 2 * Ulp((MANTISSA + 1) / 2) == 2;
    assert RoundTo(MANTISSA + 1, 2) == MANTISSA;
  }

  /** A magnitude of at least 2^53 is 53 bits wide in units of its gap. */
  lemma {:induction false} UlpFitsMantissa(a: nat)
    requires a >= MANTISSA
    ensures MANTISSA * Ulp(a) <= 2 * a < 2 * MANTISSA * Ulp(a)
  {
    if a / 2 >= MANTISSA {
      UlpFitsMantissa(a / 2);
      TwiceTheGap(a, Ulp(a / 2));
    } else {
      TwiceTheGap(a, 1);
    }
  }

  lemma TwiceTheGap(a: nat, u: nat)
    requires MANTISSA * u <= 2 * (a / 2) < 2 * MANTISSA * u || (u == 1 && MANTISSA <= a < 2 * MANTISSA)
    ensures MANTISSA * (2 * u) <= 2 * a < 2 * MANTISSA * (2 * u)
  {
  }

  lemma {:induction false} SameBinade(a: nat, b: nat)
    requires a >= MANTISSA && MANTISSA * Ulp(a) <= 2 * b < 2 * MANTISSA * Ulp(a)
    ensures Ulp(b) == Ulp(a)
  {
    if a / 2 >= MANTISSA {
      SameBinade(a / 2, b / 2);
    }
  }

  lemma NextBinade(a: nat)
    requires a >= MANTISSA
    ensures Ulp(MANTISSA * Ulp(a)) == 2 * Ulp(a)
  {
    SameBinade(a, MANTISSA * Ulp(a) / 2);
  }

  /** The gap only grows, by whole factors. */
  lemma {:induction false} UlpDivides(a: nat, m: nat) returns (j: nat)
    requires MANTISSA * Ulp(a) <= 2 * m || a < MANTISSA
    ensures Ulp(m) == j * Ulp(a)
  {
    if a < MANTISSA {
      j := Ulp(m);
    } else {
      j := UlpDivides(a / 2, m / 2);
      assert Ulp(m) == 2 * Ulp(m / 2) && 2 * (j * Ulp(a / 2)) == j * (2 * Ulp(a / 2));
    }
  }

  /** Rounding goes to one of the two neighbouring multiples, the nearer one. */
  lemma RoundToIsNear(a: nat, u: nat) returns (q: nat, k: nat)
    requires u >= 1
    ensures RoundTo(a, u) == k * u && q <= k <= q + 1
    ensures RoundTo(a, u) == q * u || RoundTo(a, u) == q * u + u
    ensures q * u <= a < q * u + u
    ensures Abs(RoundTo(a, u) - a) <= a - q * u && Abs(RoundTo(a, u) - a) <= q * u + u - a
    ensures a - q * u == q * u + u - a ==> k % 2 == 0
  {
    q := a / u;
    assert a == q * u + a % u;
    assert (q + 1) * u == q * u + u;
    k := if RoundTo(a, u) == q * u then q else q + 1;
  }

  // Products with the gap.

  lemma ProductAtLeast(x: int, y: int, u: nat)
    requires x >= y
    ensures x * u >= y * u
  {
  }

  lemma ProductAbove(x: int, y: int, u: nat)
    requires x > y
    ensures x * u >= y * u + u
  {
    ProductAtLeast(x, y + 1, u);
    assert (y + 1) * u == y * u + u;
  }

  lemma ProductsAssociate(x: int, y: int, u: int)
    ensures x * (y * u) == (x * y) * u
  {
  }

  lemma MultipleDivides(k: nat, u: nat)
    requires u >= 1
    ensures (k * u) / u == k && (k * u) % u == 0
  {
    var p := k * u;
    var d := p / u;
    assert p == d * u + p % u;
    if d > k {
      ProductAbove(d, k, u);
    } else if d < k {
      ProductAbove(k, d, u);
    }
  }

  lemma InBinade(k: nat, u: nat)
    requires u >= 1 && MANTISSA <= 2 * k && k < MANTISSA
    ensures MANTISSA * u <= 2 * (k * u) < 2 * MANTISSA * u
  {
    ProductAtLeast(2 * k, MANTISSA, u);
    ProductAbove(MANTISSA, k, u);
    ProductsAssociate(2, k, u);
  }

  /** A multiple of the gap that is not below the binade is a float64, and so is the bottom of the next one. */
  lemma MultiplesAreExact(a: nat, k: nat)
    requires a >= MANTISSA && MANTISSA <= 2 * k && k <= MANTISSA
    ensures ExactInFloat64(k * Ulp(a))
  {
    hide Ulp;
    var u := Ulp(a);
    if k < MANTISSA {
      InBinade(k, u);
      SameBinade(a, k * u);
      MultipleDivides(k, u);
    } else {
      NextBinade(a);
      ProductsAssociate(MANTISSA / 2, 2, u);
      MultipleDivides(MANTISSA / 2, 2 * u);
    }
  }

  lemma QuotientInMantissa(a: nat, q: nat, u: nat)
    requires u >= 1 && q * u <= a < q * u + u && MANTISSA * u <= 2 * a < 2 * MANTISSA * u
    ensures MANTISSA <= 2 * q && q < MANTISSA
  {
    if q >= MANTISSA {
      ProductAtLeast(q, MANTISSA, u);
    }
    if q < MANTISSA / 2 {
      ProductAbove(MANTISSA / 2, q, u);
    }
  }

  lemma RoundedIsExact(a: nat)
    ensures ExactInFloat64(RoundTo(a, Ulp(a)))
  {
    if a < MANTISSA {
      RoundToFixes(a, 1);
    } else {
      var u := Ulp(a);
      var q, k := RoundToIsNear(a, u);
      hide Ulp, RoundTo, ExactInFloat64;
      UlpFitsMantissa(a);
      QuotientInMantissa(a, q, u);
      MultiplesAreExact(a, k);
    }
  }

  /** A float64 is below the binade of `a`, or a multiple of the gap there. */
  lemma FloatsAreMultiples(a: nat, m: nat) returns (x: nat)
    requires ExactInFloat64(m) && (MANTISSA * Ulp(a) <= 2 * m || a < MANTISSA)
    ensures m == x * Ulp(a)
  {
    hide Ulp;
    var j := UlpDivides(a, m);
    var t := m / Ulp(m);
    assert m == t * Ulp(m) + m % Ulp(m);
    ProductsAssociate(t, j, Ulp(a));
    x := t * j;
  }

  /** No float64 lies strictly between the two multiples of the gap around `a`. */
  lemma NoFloatBetween(a: nat, q: nat, m: nat)
    requires ExactInFloat64(m) && q * Ulp(a) <= a < q * Ulp(a) + Ulp(a)
    ensures m <= q * Ulp(a) || m >= q * Ulp(a) + Ulp(a)
  {
    hide Ulp, ExactInFloat64;
    var u := Ulp(a);
    if a >= MANTISSA && 2 * m < MANTISSA * u {
      UlpFitsMantissa(a);
      QuotientInMantissa(a, q, u);
      ProductAtLeast(q, MANTISSA / 2, u);
    } else {
      var x := FloatsAreMultiples(a, m);
      if x <= q {
        ProductAtLeast(q, x, u);
      } else {
        ProductAbove(x, q, u);
      }
    }
  }

  lemma NearestOfTwo(a: nat, low: nat, u: nat, r: nat, m: nat)
    requires low <= a < low + u && (r == low || r == low + u) && (m <= low || m >= low + u)
    requires Abs(r - a) <= a - low && Abs(r - a) <= low + u - a
    ensures Abs(r - a) <= Abs(m - a)
    ensures m != r && Abs(r - a) == Abs(m - a) ==> a - low == low + u - a
  {
  }

  /** No float64 is nearer than the rounded value, and of two that are equally near it is the even one. */
  lemma RoundedIsNearest(a: nat, m: nat)
    requires ExactInFloat64(m)
    ensures var r := RoundTo(a, Ulp(a));
            && Abs(r - a) <= Abs(m - a)
            && (m != r && Abs(r - a) == Abs(m - a) ==> (r / Ulp(a)) % 2 == 0)
  {
    hide Ulp, RoundTo, ExactInFloat64, Abs;
    var q, k := RoundToIsNear(a, Ulp(a));
    MultipleDivides(k, Ulp(a));
    NoFloatBetween(a, q, m);
    NearestOfTwo(a, q * Ulp(a), Ulp(a), RoundTo(a, Ulp(a)), m);
  }

  /** float64(n) is a float64; it is within half the gap of n; no float64 is nearer, and of two equally near
      ones it has the even mantissa. */
  lemma RoundsToNearestEven(n: int, m: int)
    ensures ExactInFloat64(ToFloat64(n))
    ensures 2 * Abs(ToFloat64(n) - n) <= Ulp(Abs(n))
    ensures ExactInFloat64(m) ==> Abs(ToFloat64(n) - n) <= Abs(m - n)
    ensures ExactInFloat64(m) && m != ToFloat64(n) && Abs(ToFloat64(n) - n) == Abs(m - n) ==>
              (Abs(ToFloat64(n)) / Ulp(Abs(n))) % 2 == 0
  {
    RoundedIsExact(Abs(n));
    var q, k := RoundToIsNear(Abs(n), Ulp(Abs(n)));
    if ExactInFloat64(m) {
      RoundedIsNearest(Abs(n), Abs(m));
    }
  }

  // ---- Integers through JSON ----

  /** What int64(v) makes of an integer that was read back as a float64. */
  function Through(n: int, platform: Platform): int {
    ToInt64(ToFloat64(n) as real, platform)
  }

  const TWO_TO_62: int := 0x4000_0000_0000_0000
  const TWO_TO_63: int := 0x8000_0000_0000_0000

  lemma GapAtTwoTo62()
    ensures Ulp(TWO_TO_62) == 1024
  {
    assert Ulp(0x20_0000_0000_0000) == 2;
    assert Ulp(0x80_0000_0000_0000) == 8;
    assert Ulp(0x200_0000_0000_0000) == 32;
    assert Ulp(0x800_0000_0000_0000) == 128;
    assert Ulp(0x2000_0000_0000_0000) == 512;
  }

  lemma TopBinade(a: nat)
    requires TWO_TO_62 <= a < TWO_TO_63
    ensures RoundTo(a, 1024) <= TWO_TO_63
    ensures RoundTo(a, 1024) == TWO_TO_63 <==> a >= TWO_TO_63 - 512
  {
  }

  lemma BelowTopBinade(a: nat)
    requires a < TWO_TO_62
    ensures RoundTo(a, Ulp(a)) < TWO_TO_63
  {
    var q, k := RoundToIsNear(a, Ulp(a));
    if a >= MANTISSA {
      UlpFitsMantissa(a);
      hide Ulp, RoundTo;
    } else {
      SmallGap(a);
    }
  }

  lemma RoundToOverflowsIff(a: nat)
    requires a <= TWO_TO_63
    ensures RoundTo(a, Ulp(a)) <= TWO_TO_63
    ensures a < TWO_TO_63 ==> (RoundTo(a, Ulp(a)) == TWO_TO_63 <==> a >= TWO_TO_63 - 512)
  {
    hide Ulp, RoundTo;
    GapAtTwoTo62();
    if a < TWO_TO_62 {
      BelowTopBinade(a);
    } else if a < TWO_TO_63 {
      SameBinade(TWO_TO_62, a);
      TopBinade(a);
    } else {
      NextBinade(TWO_TO_62);
      RoundToFixes(a, 2048);
    }
  }

  lemma SmallGap(a: nat)
    requires a < MANTISSA
    ensures Ulp(a) == 1
  {
  }

  /** An int64 comes back as its float64, except that the 512 largest round to 2^63, which no int64 holds; so it
      comes back unchanged exactly when it is a float64, or is among those and the platform happens to say so. */
  lemma ThroughIsExactIff(n: int, platform: Platform)
    requires IsInt64(n)
    ensures Through(n, platform) == if n < TWO_TO_63 - 512 then ToFloat64(n) else platform(TWO_TO_63 as real)
    ensures Through(n, platform) == n <==>
              ExactInFloat64(n) || (n >= TWO_TO_63 - 512 && platform(TWO_TO_63 as real) == n)
  {
    Float64Exactness(n);
    RoundToOverflowsIff(Abs(n));
    TruncOfInt(ToFloat64(n));
    hide RoundTo, Ulp, ExactInFloat64, Trunc;
  }

  /** A conversion to int64 drops the fraction, toward zero, of every value it can hold. */
  lemma ToInt64Truncates(r: real, platform: Platform)
    ensures IsInt64(Trunc(r)) ==>
              var n := ToInt64(r, platform);
              (r >= 0.0 ==> n as real <= r < n as real + 1.0) && (r <= 0.0 ==> n as real - 1.0 < r <= n as real)
  {
  }
}
