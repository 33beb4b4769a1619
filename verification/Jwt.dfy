/** The claims of a parsed token and what is computed from them and the clock. Claim times are in seconds,
    clock readings and durations in nanoseconds. */
module Jwt {
  import opened Arith

  type Time = int

  const SECOND: int := 1_000_000_000

  datatype Claims = Claims(sub: string, jti: string, pathId: string, iat: int, exp: int)

  /** A clock reading in whole seconds. */
  function Seconds(now: Time): int {
    now / SECOND
  }

  /** `Validate`: the token lasts through its whole expiry second. */
  predicate Acceptable(c: Claims, now: Time) {
    && !(Seconds(now) > c.exp)
    && !(c.iat > Seconds(now))
    && c.pathId != "" && c.sub != "" && c.jti != ""
  }

  /** The instants at which complete claims are accepted: from issue up to the end of the expiry second. */
  lemma AcceptableWindow(c: Claims, now: Time)
    ensures Acceptable(c, now) <==>
            c.pathId != "" && c.sub != "" && c.jti != "" && c.iat * SECOND <= now < (c.exp + 1) * SECOND
  {
    var s := Seconds(now);
    assert s * SECOND <= now < (s + 1) * SECOND;
  }

  /** Subtracting two clock readings clamps at the ends of the 64-bit range. */
  function Saturate(d: int): int {
    Max(-TWO_63, Min(d, TWO_63 - 1))
  }

  function Lifespan(c: Claims): int {
    Saturate((c.exp - c.iat) * SECOND)
  }

  function HalfLife(c: Claims): Time {
    c.iat * SECOND + TruncDiv(Lifespan(c), 2)
  }

  /** Half-life is as far from issue as from expiry. */
  lemma HalfLifeIsMidpoint(c: Claims)
    requires 0 <= (c.exp - c.iat) * SECOND < TWO_63
    ensures HalfLife(c) - c.iat * SECOND == c.exp * SECOND - HalfLife(c)
  {
  }

  function TimeUntilHalfLife(c: Claims, now: Time): (d: int)
    ensures d >= 0
    ensures d == 0 <==> now >= HalfLife(c)
  {
    var duration := Saturate(HalfLife(c) - now);
    if duration < 0 then 0 else duration
  }
}
