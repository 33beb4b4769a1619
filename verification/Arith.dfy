/** Integer helpers shared by the timing models: Go's truncating division, powers of two, and the
    64-bit signed range in which durations (nanoseconds) live. */
module Arith {
  const TWO_53: int := 0x20_0000_0000_0000
  const TWO_63: int := 0x8000_0000_0000_0000
  const TWO_64: int := 0x1_0000_0000_0000_0000

  newtype int64 = x: int | -0x8000_0000_0000_0000 <= x < 0x8000_0000_0000_0000

  function Min(a: int, b: int): int {
    if a <= b then a else b
  }

  function Max(a: int, b: int): int {
    if a >= b then a else b
  }

  /** Division by a positive number that drops the fraction, as Go's `/` and its float-to-int conversion do. */
  function TruncDiv(a: int, b: int): int
    requires b > 0
  {
    if a >= 0 then a / b else -((-a) / b)
  }

  function Pow2(n: nat): (p: nat)
    ensures p >= 1
  {
    if n == 0 then 1 else 2 * Pow2(n - 1)
  }

  /** `x * 2^n`, by doubling. */
  function Scaled(x: nat, n: nat): (r: nat)
    ensures r >= x
  {
    if n == 0 then x else 2 * Scaled(x, n - 1)
  }

  lemma {:induction false} ScaledIsProduct(x: nat, n: nat)
    ensures Scaled(x, n) == x * Pow2(n)
  {
    if n > 0 {
      ScaledIsProduct(x, n - 1);
      assert x * Pow2(n) == 2 * (x * Pow2(n - 1));
    }
  }

  lemma {:induction false} ScaledMono(x: nat, m: nat, n: nat)
    requires m <= n
    ensures Scaled(x, m) <= Scaled(x, n)
    decreases n
  {
    if m < n {
      ScaledMono(x, m, n - 1);
    }
  }

  lemma {:induction false} ScaledDouble(x: nat, n: nat)
    ensures Scaled(2 * x, n) == Scaled(x, n + 1)
  {
    if n > 0 {
      ScaledDouble(x, n - 1);
    }
  }

  function Sum(s: seq<int>): int {
    if s == [] then 0 else Sum(s[..|s| - 1]) + s[|s| - 1]
  }
}
