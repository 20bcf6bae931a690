/**
 * The relay's retry delay: an exponential backoff computed by a 64-bit shift that may wrap around.
 */
module Backoff {
  import opened Prelude

  /** Nanoseconds, as in time.Duration. */
  const SECOND := 1_000_000_000
  const RETRY_BASE := 2 * SECOND
  const RETRY_CAP := 300 * SECOND

  function Pow2(n: nat): (p: nat)
    ensures p > 0
  {
    if n == 0 then 1 else 2 * Pow2(n - 1)
  }

  /** `retryBase << uint(k)`: bits shifted out of the 64 are lost; a negative count shifts them all out. */
  function Shifted(k: int): int {
    if k < 0 then 0 else Wrap(RETRY_BASE * Pow2(k))
  }

  /** The delay that nextRetryAt adds, where attempts counts the failed attempt already. */
  function Delay(attempts: int): int {
    var delay := Shifted(attempts - 1);
    if delay > RETRY_CAP || delay <= 0 then RETRY_CAP else delay
  }

  lemma {:induction false} PowSplit(a: nat, b: nat)
    ensures Pow2(a + b) == Pow2(a) * Pow2(b)
  {
    if b > 0 {
      PowSplit(a, b - 1);
      assert Pow2(a + b) == 2 * Pow2(a + (b - 1));
    }
  }

  lemma PowValues()
    ensures Pow2(8) == 0x100 && Pow2(32) == 0x1_0000_0000 && Pow2(33) == 0x2_0000_0000
  {
    PowSplit(8, 8);
    PowSplit(16, 16);
  }

  lemma Base(p: int)
    ensures RETRY_BASE * p == 2_000_000_000 * p
  {
    assert RETRY_BASE == 2_000_000_000;
  }

  lemma ProductCoarse(x: int, p: int, m: int)
    requires x == 2_000_000_000 * p && p == 0x2_0000_0000 * m
    ensures x % 0x800_0000_0000 == 0
  {
    assert x == 0x800_0000_0000 * (1953125 * m);
  }

  lemma WrapCoarse(x: int, w: int)
    requires x % 0x800_0000_0000 == 0 && (x - w) % 0x1_0000_0000_0000_0000 == 0
    ensures w % 0x800_0000_0000 == 0
  {
  }

  /** From the 33rd doubling on, only bits 43 and higher of the product can be set, wrapped or not. */
  lemma WrappedIsCoarse(k: nat)
    requires k >= 33
    ensures Shifted(k) % 0x800_0000_0000 == 0
  {
    var x, p, m := RETRY_BASE * Pow2(k), Pow2(k), Pow2(k - 33);
    assert p == 0x2_0000_0000 * m by {
      PowSplit(33, k - 33);
      PowValues();
    }
    Base(p);
    ProductCoarse(x, p, m);
    WrapCoarse(x, Wrap(x));
  }

  lemma {:induction false} PowGrows(a: nat, b: nat)
    requires a <= b
    ensures Pow2(a) <= Pow2(b)
  {
    if a < b {
      PowGrows(a, b - 1);
    }
  }

  lemma NoWrapYet(k: nat)
    requires 8 <= k <= 32
    ensures Shifted(k) == RETRY_BASE * Pow2(k) && Shifted(k) > RETRY_CAP
  {
    PowValues();
    PowGrows(8, k);
    PowGrows(k, 32);
    Base(Pow2(k));
  }

  /** However often the shift wraps, the delay is exactly the doubled base, capped. */
  lemma ExactBackoff(attempts: int)
    requires attempts >= 1
    ensures Delay(attempts) == Min(RETRY_BASE * Pow2(attempts - 1), RETRY_CAP)
  {
    var k := attempts - 1;
    PowValues();
    Base(Pow2(k));
    if k < 8 {
      PowGrows(k, 8);
    } else if k <= 32 {
      NoWrapYet(k);
    } else {
      PowGrows(8, k);
      WrappedIsCoarse(k);
    }
  }

  /** Delays never shrink from one attempt to the next, and always lie between the base and the cap. */
  lemma DelaysRise(attempts: int, later: int)
    requires 1 <= attempts <= later
    ensures RETRY_BASE <= Delay(attempts) <= Delay(later) <= RETRY_CAP
  {
    ExactBackoff(attempts);
    ExactBackoff(later);
    PowGrows(attempts - 1, later - 1);
    PowGrows(0, attempts - 1);
  }
}
