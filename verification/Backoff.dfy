/** The reconnection delay: an exponential schedule capped at a maximum, with a quarter of jitter on
    either side. Durations are integers (nanoseconds). */
module Backoff {
  import opened Arith

  /** What `crypto/rand` yields: eight bytes read as an unsigned integer, or a failed read. */
  datatype Draw = ReadFailed | Drawn(n: nat)

  ghost predicate ValidDraw(d: Draw) {
    d.Drawn? ==> d.n < TWO_64
  }

  function RandomBelow(limit: int, d: Draw): (r: int)
    ensures InRange(limit, r)
  {
    if limit <= 0 || d.ReadFailed? then 0 else d.n % limit
  }

  /** A draw is reduced by whole limits, so it keeps its remainder, and every draw is used. */
  lemma DrawKeepsRemainder(limit: int, n: nat) returns (q: nat)
    requires limit > 0
    ensures n == q * limit + RandomBelow(limit, Drawn(n)) && 0 <= RandomBelow(limit, Drawn(n)) < limit
  {
    q := n / limit;
  }

  /** What a draw below `limit` can be. */
  ghost predicate InRange(limit: int, r: int) {
    if limit <= 0 then r == 0 else 0 <= r < limit
  }

  /** The value of `secureRandomDuration`. */
  method SecureRandomDuration(maxDuration: int64, d: Draw) returns (r: int64)
    requires ValidDraw(d)
    ensures r as int == RandomBelow(maxDuration as int, d)
    ensures InRange(maxDuration as int, r as int)
  {
    if maxDuration <= 0 {
      return 0;
    }
    match d
    case ReadFailed => return 0;
    case Drawn(n) => return (n % (maxDuration as int)) as int64;
  }

  /** The i-th delay before jitter (attempts count from 1). */
  function Capped(initial: nat, cap: int, i: nat): (r: int)
    requires i >= 1
    ensures r <= cap
  {
    Min(Scaled(initial, i - 1), cap)
  }

  /** Converting the float product to a duration: exact while it fits; otherwise `overflow` stands for
      whatever 64-bit value the platform's conversion leaves behind. */
  function RawBackoff(attempt: nat, initial: nat, overflow: int): int
    requires attempt >= 1
  {
    var product := Scaled(initial, attempt - 1);
    if product < TWO_63 then product else overflow
  }

  /** A capped delay `b` after jitter and clamping, over unbounded integers. */
  function Spread(b: int, initial: nat, cap: int, d: Draw): (r: int)
    ensures initial <= cap ==> initial <= r
    ensures r <= cap
  {
    var quarter := TruncDiv(b, 4);
    Min(Max(b + (RandomBelow(quarter * 2, d) - quarter), initial), cap)
  }

  /** The delay before the next attempt. */
  function Jittered(attempt: nat, initial: nat, cap: int, d: Draw, overflow: int): (r: int)
    requires attempt >= 1
    ensures initial <= cap ==> initial <= r
    ensures r <= cap
  {
    Spread(Min(RawBackoff(attempt, initial, overflow), cap), initial, cap, d)
  }

  /** `calculateBackoffWithJitter`, on 64-bit durations: no intermediate value leaves the range, whatever
      the platform makes of an overflowing product. Below 2^53 both float operations are exact. */
  method CalculateBackoffWithJitter(attempt: nat, initial: int64, maxBackoff: int64, d: Draw, overflow: int64)
    returns (backoff: int64)
    requires attempt >= 1 && ValidDraw(d)
    requires 0 <= initial as int < TWO_53 && -TWO_53 < maxBackoff as int < TWO_53
    ensures backoff as int == Jittered(attempt, initial as nat, maxBackoff as int, d, overflow as int)
  {
    backoff := RawBackoff(attempt, initial as nat, overflow as int) as int64;
    if backoff > maxBackoff {
      backoff := maxBackoff;
    }
    var jitterRange := TruncDiv(backoff as int, 4) as int64;
    var random := SecureRandomDuration(jitterRange * 2, d);
    var jitter := random - jitterRange;
    backoff := backoff + jitter;
    if backoff < initial {
      backoff := initial;
    }
    if backoff > maxBackoff {
      backoff := maxBackoff;
    }
  }

  ghost function BandLow(initial: nat, cap: nat, i: nat): int
    requires i >= 1
  {
    var b := Capped(initial, cap, i);
    Max(initial, b - b / 4)
  }

  ghost function BandHigh(initial: nat, cap: nat, i: nat): int
    requires i >= 1
  {
    var b := Capped(initial, cap, i);
    Min(cap, b + b / 4)
  }

  lemma CappedIsMin(attempt: nat, initial: nat, cap: nat, overflow: int)
    requires attempt >= 1 && cap < TWO_63
    requires Scaled(initial, attempt - 1) < TWO_63 || overflow >= cap
    ensures 0 <= Capped(initial, cap, attempt) == Min(RawBackoff(attempt, initial, overflow), cap)
  {
  }

  /** The band around the i-th delay holds for every draw while the product fits 64 bits, and beyond
      that as long as the platform saturates. */
  lemma JitteredInBand(attempt: nat, initial: nat, cap: nat, d: Draw, overflow: int)
    requires attempt >= 1 && initial <= cap < TWO_63
    requires Scaled(initial, attempt - 1) < TWO_63 || overflow >= cap
    ensures BandLow(initial, cap, attempt) <= Jittered(attempt, initial, cap, d, overflow)
              <= BandHigh(initial, cap, attempt)
  {
    CappedIsMin(attempt, initial, cap, overflow);
    SpreadInBand(Capped(initial, cap, attempt), initial, cap, d);
  }

  lemma SpreadInBand(b: nat, initial: nat, cap: nat, d: Draw)
    requires initial <= cap && b <= cap
    ensures Max(initial, b - b / 4) <= Spread(b, initial, cap, d) <= Min(cap, Max(initial, b + b / 4))
    ensures initial <= b ==> Spread(b, initial, cap, d) <= b + b / 4
  {
    var random := RandomBelow((b / 4) * 2, d);
    assert 0 <= random <= 2 * (b / 4);
  }

  /** The band is not wider than it needs to be: below its open upper end every value is some draw's delay. */
  lemma BandIsReached(attempt: nat, initial: nat, cap: nat, overflow: int, target: int) returns (d: Draw)
    requires attempt >= 1 && 1 <= initial <= cap < TWO_63
    requires Scaled(initial, attempt - 1) < TWO_63
    requires BandLow(initial, cap, attempt) <= target <= BandHigh(initial, cap, attempt)
    requires target < Capped(initial, cap, attempt) + Capped(initial, cap, attempt) / 4
    ensures ValidDraw(d) && Jittered(attempt, initial, cap, d, overflow) == target
  {
    CappedIsMin(attempt, initial, cap, overflow);
    d := SpreadReaches(Capped(initial, cap, attempt), initial, cap, target);
  }

  lemma SpreadReaches(b: nat, initial: nat, cap: nat, target: int) returns (d: Draw)
    requires initial <= target <= cap && b <= cap < TWO_63
    requires b - b / 4 <= target < b + b / 4
    ensures ValidDraw(d) && Spread(b, initial, cap, d) == target
  {
    var n := target - b + b / 4;
    d := Drawn(n);
    SmallMod(n, (b / 4) * 2);
  }

  lemma SmallMod(n: nat, m: nat)
    requires n < m
    ensures n % m == n
  {
  }

  /** Once the product overflows, a platform that leaves a non-positive value restarts the schedule: the
      delay is exactly the initial one. So the band around the cap then holds if and only if the initial
      delay already lies in it. */
  lemma OverflowCollapses(attempt: nat, initial: nat, cap: nat, d: Draw, overflow: int)
    requires attempt >= 1 && 1 <= initial <= cap
    requires Scaled(initial, attempt - 1) >= TWO_63 > cap && overflow <= 0
    ensures Jittered(attempt, initial, cap, d, overflow) == initial
    ensures BandLow(initial, cap, attempt) <= Jittered(attempt, initial, cap, d, overflow)
              <= BandHigh(initial, cap, attempt)
       <==> cap - cap / 4 <= initial
  {
    assert Capped(initial, cap, attempt) == cap;
  }

  ghost function SumCapped(initial: nat, cap: nat, k: nat): int {
    if k == 0 then 0 else SumCapped(initial, cap, k - 1) + Capped(initial, cap, k)
  }

  /** How many attempts lie strictly below the cap. */
  ghost function Crossover(initial: nat, cap: nat): (c: nat)
    requires initial >= 1
    ensures c > 0 ==> Scaled(initial, c - 1) < cap
    ensures cap <= Scaled(initial, c)
    decreases cap - initial
  {
    if cap <= initial then 0
    else
      var c := Crossover(2 * initial, cap);
      ScaledDouble(initial, c);
      if c > 0 then ScaledDouble(initial, c - 1); c + 1 else c + 1
  }

  lemma {:induction false} SumBelowCap(initial: nat, cap: nat, k: nat)
    requires k > 0 ==> Scaled(initial, k - 1) <= cap
    ensures SumCapped(initial, cap, k) == Scaled(initial, k) - initial
  {
    if k > 1 {
      ScaledMono(initial, k - 2, k - 1);
    }
    if k > 0 {
      SumBelowCap(initial, cap, k - 1);
    }
  }

  lemma MulStep(n: int, m: int)
    ensures (n + 1) * m == n * m + m
  {
  }

  lemma {:induction false} SumAtCap(initial: nat, cap: nat, c: nat, k: nat)
    requires cap <= Scaled(initial, c) && c <= k
    ensures SumCapped(initial, cap, k) == SumCapped(initial, cap, c) + (k - c) * cap
    decreases k
  {
    if c < k {
      SumAtCap(initial, cap, c, k - 1);
      ScaledMono(initial, c, k - 1);
      assert Capped(initial, cap, k) == cap;
      MulStep(k - 1 - c, cap);
    }
  }

  /** The summed schedule in closed form: geometric up to the crossover, linear after it. */
  ghost function ClosedSum(initial: nat, cap: nat, k: nat): int
    requires initial >= 1
  {
    var c := Crossover(initial, cap);
    if k <= c then Scaled(initial, k) - initial else Scaled(initial, c) - initial + (k - c) * cap
  }

  lemma SumCappedClosedForm(initial: nat, cap: nat, k: nat)
    requires initial >= 1
    ensures SumCapped(initial, cap, k) == ClosedSum(initial, cap, k)
  {
    var c := Crossover(initial, cap);
    if k <= c {
      SumUpToCrossover(initial, cap, c, k);
    } else {
      SumUpToCrossover(initial, cap, c, c);
      SumAtCap(initial, cap, c, k);
    }
  }

  lemma SumUpToCrossover(initial: nat, cap: nat, c: nat, k: nat)
    requires k <= c && (c > 0 ==> Scaled(initial, c - 1) < cap)
    ensures SumCapped(initial, cap, k) == Scaled(initial, k) - initial
  {
    if k > 0 {
      ScaledMono(initial, k - 1, c - 1);
    }
    SumBelowCap(initial, cap, k);
  }

  // The sums of the bands' ends

  ghost function SumLow(initial: nat, cap: nat, k: nat): int {
    if k == 0 then 0 else SumLow(initial, cap, k - 1) + BandLow(initial, cap, k)
  }

  ghost function SumHigh(initial: nat, cap: nat, k: nat): int {
    if k == 0 then 0 else SumHigh(initial, cap, k - 1) + BandHigh(initial, cap, k)
  }

  /** The summed quarters of the first `k` delays while none reaches the cap: from the third on they are whole
      and double. */
  ghost function Quarters(initial: nat, k: nat): int {
    if k == 0 then 0
    else if k == 1 then initial / 4
    else initial / 4 + initial / 2 + (Scaled(initial, k - 2) - initial)
  }

  lemma QuartersStep(initial: nat, k: nat)
    requires k >= 1
    ensures Quarters(initial, k) == Quarters(initial, k - 1) + Scaled(initial, k - 1) / 4
  {
    if k >= 3 {
      assert Scaled(initial, k - 1) == 4 * Scaled(initial, k - 3);
    }
  }

  /** Below the cap: the delays less their quarters, the first clamped to the initial delay. */
  ghost function LowBelow(initial: nat, k: nat): int {
    Scaled(initial, k) - initial - Quarters(initial, k) + (if k == 0 then 0 else initial / 4)
  }

  ghost function ClosedLow(initial: nat, cap: nat, k: nat): int
    requires initial >= 1
  {
    var c := Crossover(initial, cap);
    if k <= c then LowBelow(initial, k) else LowBelow(initial, c) + (k - c) * Max(initial, cap - cap / 4)
  }

  ghost function HighBelow(initial: nat, k: nat): int {
    Scaled(initial, k) - initial + Quarters(initial, k)
  }

  /** The last delay below the cap may reach it with its quarter; from then on the upper end is the cap. */
  ghost function ClosedHigh(initial: nat, cap: nat, k: nat): int
    requires initial >= 1
  {
    var c := Crossover(initial, cap);
    if k < c then HighBelow(initial, k)
    else if c == 0 then k * cap
    else HighBelow(initial, c - 1) + Min(cap, Scaled(initial, c - 1) + Scaled(initial, c - 1) / 4) + (k - c) * cap
  }

  lemma {:induction false} SumLowBelow(initial: nat, cap: nat, k: nat)
    requires k > 0 ==> Scaled(initial, k - 1) <= cap
    ensures SumLow(initial, cap, k) == LowBelow(initial, k)
  {
    if k > 1 {
      ScaledMono(initial, k - 2, k - 1);
      assert Scaled(initial, k - 1) == 2 * Scaled(initial, k - 2) >= 2 * initial;
    }
    if k > 0 {
      QuartersStep(initial, k);
      SumLowBelow(initial, cap, k - 1);
    }
  }

  lemma {:induction false} SumLowFlat(initial: nat, cap: nat, c: nat, k: nat, low: nat)
    requires c <= k && forall i :: c < i <= k ==> BandLow(initial, cap, i) == low
    ensures SumLow(initial, cap, k) == SumLow(initial, cap, c) + (k - c) * low
    decreases k
  {
    hide BandLow;
    if c < k {
      SumLowFlat(initial, cap, c, k - 1, low);
      assert (k - c) * low == (k - 1 - c) * low + low by {
        MulStep(k - 1 - c, low);
      }
    }
  }

  lemma SumLowAtCap(initial: nat, cap: nat, c: nat, k: nat)
    requires cap <= Scaled(initial, c) && c <= k
    ensures SumLow(initial, cap, k) == SumLow(initial, cap, c) + (k - c) * Max(initial, cap - cap / 4)
  {
    var low := Max(initial, cap - cap / 4);
    forall i | c < i <= k
      ensures BandLow(initial, cap, i) == low
    {
      ScaledMono(initial, c, i - 1);
    }
    SumLowFlat(initial, cap, c, k, low);
  }

  lemma {:induction false} SumHighBelow(initial: nat, cap: nat, k: nat)
    requires k > 0 ==> 2 * Scaled(initial, k - 1) <= cap
    ensures SumHigh(initial, cap, k) == HighBelow(initial, k)
  {
    if k > 1 {
      ScaledMono(initial, k - 2, k - 1);
    }
    if k > 0 {
      QuartersStep(initial, k);
      SumHighBelow(initial, cap, k - 1);
    }
  }

  lemma {:induction false} SumHighAtCap(initial: nat, cap: nat, c: nat, k: nat)
    requires cap <= Scaled(initial, c) && c <= k
    ensures SumHigh(initial, cap, k) == SumHigh(initial, cap, c) + (k - c) * cap
    decreases k
  {
    if c < k {
      SumHighAtCap(initial, cap, c, k - 1);
      assert BandHigh(initial, cap, k) == cap by {
        ScaledMono(initial, c, k - 1);
      }
      MulStep(k - 1 - c, cap);
      hide BandHigh, Scaled;
    }
  }

  lemma SumLowClosedForm(initial: nat, cap: nat, k: nat)
    requires initial >= 1
    ensures SumLow(initial, cap, k) == ClosedLow(initial, cap, k)
  {
    hide SumLow, LowBelow, Scaled, Max;
    var c := Crossover(initial, cap);
    if k < c {
      BelowCrossover(initial, cap, c, k);
    } else {
      SumLowAtCap(initial, cap, c, k);
      SumLowBelow(initial, cap, c);
    }
  }

  lemma SumHighClosedForm(initial: nat, cap: nat, k: nat)
    requires initial >= 1
    ensures SumHigh(initial, cap, k) == ClosedHigh(initial, cap, k)
  {
    var c := Crossover(initial, cap);
    if k < c {
      BelowCrossover(initial, cap, c, k);
    } else {
      SumHighAtCap(initial, cap, c, k);
      if c > 0 {
        BelowCrossover(initial, cap, c, c - 1);
        assert SumHigh(initial, cap, c) == SumHigh(initial, cap, c - 1) + BandHigh(initial, cap, c);
        assert Capped(initial, cap, c) == Scaled(initial, c - 1);
      }
      hide HighBelow, Scaled;
    }
  }

  /** The summed bands in closed form: geometric up to the crossover, linear after it. */
  lemma SumBandsClosedForm(initial: nat, cap: nat, k: nat)
    requires initial >= 1
    ensures SumLow(initial, cap, k) == ClosedLow(initial, cap, k)
    ensures SumHigh(initial, cap, k) == ClosedHigh(initial, cap, k)
  {
    SumLowClosedForm(initial, cap, k);
    SumHighClosedForm(initial, cap, k);
  }

  lemma BelowCrossover(initial: nat, cap: nat, c: nat, k: nat)
    requires k < c && Scaled(initial, c - 1) < cap
    ensures SumLow(initial, cap, k) == LowBelow(initial, k) && SumHigh(initial, cap, k) == HighBelow(initial, k)
  {
    if k > 0 {
      ScaledMono(initial, k, c - 1);
      assert Scaled(initial, k) == 2 * Scaled(initial, k - 1);
    }
    SumLowBelow(initial, cap, k);
    SumHighBelow(initial, cap, k);
  }
}
