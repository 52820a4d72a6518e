/**
 The ordering key of the priority queue: `priority*1e10 + time`, computed in binary64,
 and the retry delay, computed in 64-bit integers.
 */
module PriorityScore {
  import opened Common

  const SPAN := 10_000_000_000
  const TWO_53 := 9_007_199_254_740_992
  const TWO_63 := 9_223_372_036_854_775_808
  const TWO_64 := 18_446_744_073_709_551_616
  const SECOND := 1_000_000_000

  // ---------- binary64 (section 3.6 of IEEE 754-2019) on integers ----------

  /** The multiple of `ulp` nearest to `x`, ties going to the even multiple. */
  function NearestMultiple(x: nat, ulp: nat): nat
    requires ulp >= 1
  {
    var q, r := x / ulp, x % ulp;
    if 2 * r < ulp || (2 * r == ulp && q % 2 == 0) then q * ulp else (q + 1) * ulp
  }

  /** Rounds `x` to 53 significant bits, trying the spacings ulp, 2*ulp, 4*ulp, ... */
  function RoundFrom(x: nat, ulp: nat): nat
    requires ulp >= 1
    decreases x - ulp
  {
    if x < TWO_53 * ulp then NearestMultiple(x, ulp) else RoundFrom(x, 2 * ulp)
  }

  /** The binary64 value nearest to an integer (exponent overflow aside). */
  function Float(x: int): int {
    if x < 0 then 0 - RoundFrom(-x, 1) else RoundFrom(x, 1)
  }

  /** `float64(priority)*1e10 + float64(key)`, each operation rounded. */
  function Score(priority: int, key: int): int {
    Float(Float(Float(priority) * SPAN) + Float(key))
  }

  lemma FloatExact(x: int)
    requires -TWO_53 <= x <= TWO_53
    ensures Float(x) == x
  {
  }

  // ---------- Rounding picks a nearest binary64 integer ----------

  function Distance(a: int, b: int): nat {
    if a < b then b - a else a - b
  }

  /** A binary64 integer: at most 53 significant bits. */
  ghost predicate Representable(y: nat) {
    exists m: nat, e: nat :: Scaled(y, m, e)
  }

  predicate Scaled(y: nat, m: nat, e: nat) {
    m <= 9_007_199_254_740_992 && y == m * Pow(2, e)
  }

  lemma NearestOfMultiples(x: nat, u: nat, k: nat)
    requires u >= 1
    ensures Distance(NearestMultiple(x, u), x) <= Distance(k * u, x)
  {
    var q, r := x / u, x % u;
    assert x == q * u + r;
    if k <= q {
      TimesMonotone(k, q, u);
    } else {
      TimesMonotone(q + 1, k, u);
    }
    TimesMonotone(q, q, u);
  }

  lemma {:induction false} PowersMultiply(e: nat, f: nat)
    ensures Pow(2, e + f) == Pow(2, e) * Pow(2, f)
  {
    if e > 0 {
      PowersMultiply(e - 1, f);
    }
  }

  lemma AboveSpacing(x: nat, e: nat, m: nat, f: nat)
    requires f >= e && Pow(2, e) >= 1
    ensures Distance(NearestMultiple(x, Pow(2, e)), x) <= Distance(m * Pow(2, f), x)
  {
    PowersMultiply(f - e, e);
    PowPositive(2, f - e);
    var p := Pow(2, f - e);
    Regroup(m, p, Pow(2, e));
    NearestOfMultiples(x, Pow(2, e), m * p);
  }

  lemma Regroup(m: nat, p: nat, u: nat)
    ensures m * p >= 0 && m * p * u == m * (p * u)
  {
  }

  lemma TimesOrdered(a: nat, b: nat, c: nat, d: nat)
    requires a <= b && c <= d
    ensures a * c <= b * d
  {
    TimesMonotone(a, b, c);
    TimesMonotone(c, d, b);
    assert b * c == c * b && b * d == d * b;
  }

  lemma BelowSpacing(x: nat, half: nat, m: nat, p: nat)
    requires m <= TWO_53 && 1 <= p <= half && x >= TWO_53 * half
    ensures m * p <= TWO_53 / 2 * (2 * half) <= x
  {
    TimesOrdered(m, TWO_53, p, half);
    assert TWO_53 / 2 * (2 * half) == TWO_53 * half;
  }

  /** Within one spacing 2^e, no binary64 integer is nearer than the rounding. */
  lemma NearestHere(x: nat, e: nat, m: nat, f: nat)
    requires m <= TWO_53 && (e > 0 ==> x >= TWO_53 * Pow(2, e - 1)) && Pow(2, e) >= 1
    ensures Distance(NearestMultiple(x, Pow(2, e)), x) <= Distance(m * Pow(2, f), x)
  {
    hide NearestMultiple;
    if f >= e {
      AboveSpacing(x, e, m, f);
    } else {
      PowMonotone(2, f, e - 1);
      PowPositive(2, f);
      BelowSpacing(x, Pow(2, e - 1), m, Pow(2, f));
      NearestOfMultiples(x, Pow(2, e), TWO_53 / 2);
    }
  }

  lemma MultipleFits(x: nat, u: nat) returns (m: nat)
    requires u >= 1 && x < TWO_53 * u
    ensures m <= TWO_53 && NearestMultiple(x, u) == m * u
  {
    var q := x / u;
    Cancel(q, TWO_53, u);
    m := if NearestMultiple(x, u) == q * u then q else q + 1;
  }

  lemma Cancel(q: nat, t: nat, u: nat)
    requires q * u < t * u
    ensures q < t
  {
  }

  lemma {:induction false} NearestFrom(x: nat, e: nat, m: nat, f: nat)
    requires m <= TWO_53 && (e > 0 ==> x >= TWO_53 * Pow(2, e - 1)) && Pow(2, e) >= 1
    ensures Distance(RoundFrom(x, Pow(2, e)), x) <= Distance(m * Pow(2, f), x)
    ensures Representable(RoundFrom(x, Pow(2, e)))
    decreases x + 1 - Pow(2, e)
  {
    if x < TWO_53 * Pow(2, e) {
      NearestHere(x, e, m, f);
      var n := MultipleFits(x, Pow(2, e));
      assert Scaled(RoundFrom(x, Pow(2, e)), n, e);
    } else {
      assert Pow(2, e + 1) == 2 * Pow(2, e);
      NearestFrom(x, e + 1, m, f);
    }
  }

  /** The rounding of a non-negative integer is a binary64 integer, and none is nearer. */
  lemma FloatNearest(x: nat, y: nat)
    requires Representable(y)
    ensures Representable(Float(x)) && Distance(Float(x), x) <= Distance(y, x)
  {
    var m: nat, f: nat :| Scaled(y, m, f);
    assert Pow(2, 0) == 1;
    NearestFrom(x, 0, m, f);
  }

  // ---------- The score is an order embedding exactly up to priority 900718 ----------

  const TOP_PRIORITY := 900_718

  predicate InRange(priority: int, key: int) {
    -TOP_PRIORITY <= priority <= TOP_PRIORITY && 0 <= key < SPAN
  }

  lemma ScoreExact(priority: int, key: int)
    requires InRange(priority, key)
    ensures Score(priority, key) == priority * SPAN + key == priority * 10_000_000_000 + key
    ensures Score(priority, key) / SPAN == priority && Score(priority, key) % SPAN == key
  {
    FloatExact(priority);
    FloatExact(priority * SPAN);
    FloatExact(key);
    FloatExact(priority * SPAN + key);
  }

  /** Comparing scores compares (priority, key) pairs lexicographically. */
  lemma ScoreOrder(p: int, k: int, q: int, l: int)
    requires InRange(p, k) && InRange(q, l)
    ensures Score(p, k) < Score(q, l) <==> p < q || (p == q && k < l)
    ensures Score(p, k) == Score(q, l) <==> p == q && k == l
  {
    ScoreExact(p, k);
    ScoreExact(q, l);
  }

  lemma QuotientUnique(x: nat, q: nat, u: nat, r: nat)
    requires r < u && x == q * u + r
    ensures x / u == q && x % u == r
  {
    var d := x / u - q;
    assert d * u == r - x % u;
    assert d >= 1 ==> d * u >= u;
    assert d <= -1 ==> d * u <= 0 - u;
  }

  lemma Nearest(x: nat, q: nat, u: nat, r: nat)
    requires r < u && x == q * u + r
    ensures NearestMultiple(x, u) == if 2 * r < u || (2 * r == u && q % 2 == 0) then q * u else q * u + u
  {
    QuotientUnique(x, q, u, r);
  }

  lemma RemainderOdd(z: nat, q: nat, h: nat, r: nat)
    requires z % 2 == 1 && z == q * (2 * h) + r
    ensures r % 2 == 1
  {
    assert q * (2 * h) == 2 * (q * h);
  }

  lemma RoundsDown(z: nat, q: nat, u: nat, r: nat)
    requires 1 <= r < u && z == q * u + r && z < TWO_53 * u
    requires 2 * r < u || (2 * r == u && q % 2 == 0)
    ensures RoundFrom(z, u) == RoundFrom(z - 1, u)
  {
    Nearest(z, q, u, r);
    Nearest(z - 1, q, u, r - 1);
  }

  lemma NextMultipleFits(q: nat, u: nat, r: nat)
    requires r < u && q * u + r < TWO_53 * u
    ensures q * u + u <= TWO_53 * u
  {
    TimesMonotone(q, q, u);
    if q >= TWO_53 {
      TimesMonotone(TWO_53, q, u);
      assert false;
    }
    TimesMonotone(q + 1, TWO_53, u);
  }

  lemma RoundsUp(z: nat, q: nat, u: nat, r: nat)
    requires 1 <= r < u && z == q * u + r && z < TWO_53 * u
    requires 2 * r > u || (2 * r == u && q % 2 == 1)
    ensures RoundFrom(z, u) == RoundFrom(z + 1, u)
  {
    NextMultipleFits(q, u, r);
    Nearest(z, q, u, r);
    if r + 1 < u {
      Nearest(z + 1, q, u, r + 1);
    } else {
      TimesMonotone(q, q, u);
      MultipleIsExact(z + 1, q + 1, u);
    }
  }

  lemma MultipleIsExact(x: nat, q: nat, u: nat)
    requires u >= 1 && x == q * u && x <= TWO_53 * u
    ensures RoundFrom(x, u) == x
  {
    if x < TWO_53 * u {
      Nearest(x, q, u, 0);
    } else {
      Nearest(x, TWO_53 / 2, 2 * u, 0);
    }
  }

  lemma TimesMonotone(a: nat, b: nat, c: nat)
    requires a <= b
    ensures a * c <= b * c
    ensures (a + 1) * c == a * c + c
  {
  }

  /** Within one spacing an odd integer rounds like one of its neighbours. */
  lemma OddCollidesHere(z: nat, u: nat, h: nat)
    requires z % 2 == 1 && h >= 1 && u == 2 * h && z < TWO_53 * u
    ensures RoundFrom(z, u) == RoundFrom(z - 1, u) || RoundFrom(z, u) == RoundFrom(z + 1, u)
  {
    var q, r := z / u, z % u;
    assert z == q * u + r;
    RemainderOdd(z, q, h, r);
    if 2 * r > u || (2 * r == u && q % 2 == 1) {
      RoundsUp(z, q, u, r);
    } else {
      RoundsDown(z, q, u, r);
    }
  }

  /** Above 2^53 every odd integer shares its rounding with an even neighbour. */
  lemma {:induction false} OddCollides(z: nat, u: nat, h: nat)
    requires z % 2 == 1 && h >= 1 && u == 2 * h
    ensures RoundFrom(z, u) == RoundFrom(z - 1, u) || RoundFrom(z, u) == RoundFrom(z + 1, u)
    decreases z + 1 - u
  {
    if z < TWO_53 * u {
      OddCollidesHere(z, u, h);
    } else {
      OddCollides(z, 2 * u, u);
    }
  }

  lemma RoundEvenHere(x: nat, u: nat, h: nat, q: nat, r: nat)
    requires h >= 1 && u == 2 * h && x >= TWO_53 * h && x < TWO_53 * u && r < u && x == q * u + r
    ensures RoundFrom(x, u) >= TWO_53 && RoundFrom(x, u) % 2 == 0
  {
    Nearest(x, q, u, r);
    HalfLarge(q, h, u, r);
    assert q * u == 2 * (q * h) && q * u + u == 2 * (q * h + h);
    TwiceEven(q * h);
    TwiceEven(q * h + h);
  }

  lemma TwiceEven(n: int)
    ensures (2 * n) % 2 == 0
  {
  }

  lemma {:induction false} RoundEven(x: nat, u: nat, h: nat)
    requires h >= 1 && u == 2 * h && x >= TWO_53 * h
    ensures RoundFrom(x, u) >= TWO_53 && RoundFrom(x, u) % 2 == 0
    decreases x + 1 - u
  {
    if x >= TWO_53 * u {
      RoundEven(x, 2 * u, u);
    } else {
      RoundEvenHere(x, u, h, x / u, x % u);
    }
  }

  lemma HalfLarge(q: nat, h: nat, u: nat, r: nat)
    requires h >= 1 && u == 2 * h && r < u && q * u + r >= TWO_53 * h
    ensures 2 * (q * h) >= TWO_53
  {
    if q < TWO_53 / 2 {
      TimesMonotone(q, q, u);
      TimesMonotone(q + 1, TWO_53 / 2, u);
      assert false;
    }
    TimesMonotone(1, h, q);
  }

  /** Two neighbouring time keys collide above any even base at or beyond 2^53. */
  lemma NeighboursCollide(base: int) returns (k: int)
    requires base >= TWO_53 && base % 2 == 0
    ensures (k == 0 || k == 1) && Float(base + k) == Float(base + k + 1)
  {
    var z := base + 1;
    OddCollides(z, 2, 1);
    assert Float(z - 1) == RoundFrom(z - 1, 2);
    assert Float(z) == RoundFrom(z, 2);
    assert Float(z + 1) == RoundFrom(z + 1, 2);
    k := if Float(z) == Float(z - 1) then 0 else 1;
  }

  lemma FloatLarge(x: int)
    requires x >= TWO_53
    ensures Float(x) >= TWO_53 && Float(x) % 2 == 0
  {
    assert RoundFrom(x, 1) == RoundFrom(x, 2);
    RoundEven(x, 2, 1);
  }

  /** From priority 900719 on, two different time keys get one score. */
  lemma ScoreCollides(priority: int) returns (k: int, l: int)
    requires priority > TOP_PRIORITY
    ensures 0 <= k < l < SPAN && Score(priority, k) == Score(priority, l)
  {
    if priority == TOP_PRIORITY + 1 {
      k := NeighboursCollide(TWO_53);
      FloatExact(priority);
      FloatExact(priority * SPAN);
      var offset := TWO_53 - priority * SPAN;
      FloatExact(offset + k);
      FloatExact(offset + k + 1);
      k, l := offset + k, offset + k + 1;
    } else {
      if priority <= TWO_53 {
        FloatExact(priority);
      } else {
        FloatLarge(priority);
      }
      FloatLarge(Float(priority) * SPAN);
      k := NeighboursCollide(Float(Float(priority) * SPAN));
      l := k + 1;
      FloatExact(k);
      FloatExact(l);
    }
  }

  ghost predicate Embeds(priority: int) {
    forall k, l :: 0 <= k < l < SPAN ==> Score(priority, k) < Score(priority, l)
  }

  /** For non-negative priorities the time key keeps its order iff the priority is at most 900718. */
  lemma EmbedsExactly(priority: nat)
    ensures Embeds(priority) <==> priority <= TOP_PRIORITY
  {
    if priority <= TOP_PRIORITY {
      forall k, l | 0 <= k < l < SPAN
        ensures Score(priority, k) < Score(priority, l)
      {
        ScoreOrder(priority, k, priority, l);
      }
    } else {
      var k, l := ScoreCollides(priority);
    }
  }

  // ---------- Retry delay ----------

  /** The 64-bit two's complement value of an integer. */
  function Wrap64(x: int): int {
    (x + TWO_63) % TWO_64 - TWO_63
  }

  /** `time.Duration(5 * (1 << (retry - 1))) * time.Second`: shift, product and conversion all wrap. */
  function Delay(retry: int): int
    requires retry >= 1
  {
    Wrap64(Wrap64(5 * Wrap64(Pow(2, retry - 1))) * SECOND)
  }

  /** Seconds since the epoch of an instant counted in nanoseconds. */
  function Unix(t: int): int {
    t / SECOND
  }

  const LAST_EXACT_RETRY := 31

  lemma PowersOfTwo()
    ensures Pow(2, 30) == 1_073_741_824 && Pow(2, 31) == 2_147_483_648
  {
    assert Pow(2, 8) == 256;
    assert Pow(2, 16) == 65_536;
    assert Pow(2, 24) == 16_777_216;
  }

  lemma WrapExact(x: int)
    ensures Wrap64(x) == x <==> -TWO_63 <= x < TWO_63
    ensures -TWO_63 <= Wrap64(x) < TWO_63
  {
  }

  /** The delay is 5*2^(retry-1) seconds exactly up to the 31st retry. */
  lemma DelayExact(retry: int)
    requires retry >= 1
    ensures Delay(retry) == 5 * Pow(2, retry - 1) * SECOND <==> retry <= LAST_EXACT_RETRY
    ensures retry <= LAST_EXACT_RETRY ==> 5 * SECOND <= Delay(retry) <= 5 * 1_073_741_824 * SECOND
  {
    PowersOfTwo();
    var power := Pow(2, retry - 1);
    PowPositive(2, retry - 1);
    if retry <= LAST_EXACT_RETRY {
      PowMonotone(2, retry - 1, 30);
      WrapExact(power);
      WrapExact(5 * power);
      WrapExact(5 * power * SECOND);
    } else {
      PowMonotone(2, 31, retry - 1);
      WrapExact(Wrap64(5 * Wrap64(power)) * SECOND);
    }
  }

  function DelaySum(n: nat): int {
    if n == 0 then 0 else DelaySum(n - 1) + Delay(n)
  }

  lemma {:induction false} DelaySumClosed(n: nat)
    requires n <= LAST_EXACT_RETRY
    ensures DelaySum(n) == 5 * (Pow(2, n) - 1) * SECOND
  {
    if n > 0 {
      DelaySumClosed(n - 1);
      DelayExact(n);
    }
  }

  lemma RetryKeyInRange(retry: int, now: int)
    requires 1 <= retry <= LAST_EXACT_RETRY && 0 <= now < 4_600_000_000 * SECOND
    ensures 0 <= Unix(now + Delay(retry)) < SPAN
  {
    DelayExact(retry);
  }

  /** A later retry of the same job gets a larger key, and the key stays a valid time key until 4.6e9. */
  lemma RetryKeyGrows(retry: int, earlier: int, now: int)
    requires 1 <= retry < LAST_EXACT_RETRY && 0 <= earlier <= now < 4_600_000_000 * SECOND
    ensures 0 <= Unix(earlier + Delay(retry)) < Unix(now + Delay(retry + 1)) < SPAN
  {
    DelayExact(retry);
    DelayExact(retry + 1);
  }

  /** The 32nd retry wraps: its key is negative, so its score falls below the job's own priority class. */
  lemma RetryKeyWraps(now: int, priority: int)
    requires 0 <= now < 4_600_000_000 * SECOND
    ensures Delay(32) < 0 && Unix(now + Delay(32)) < 0
    ensures 0 <= priority <= TOP_PRIORITY ==> Score(priority, Unix(now + Delay(32))) < Score(priority, 0)
  {
    PowersOfTwo();
    var key := Unix(now + Delay(32));
    if 0 <= priority <= TOP_PRIORITY {
      FloatExact(priority);
      FloatExact(priority * SPAN);
      FloatExact(key);
      FloatExact(priority * SPAN + key);
      FloatExact(0);
    }
  }
}
