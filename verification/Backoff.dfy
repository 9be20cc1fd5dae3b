/**
The delay before a released event may be claimed again, in signed 64-bit arithmetic.

A duration is a number of nanoseconds held in an int64; shifting and multiplying wrap.
*/
module Backoff {
  import opened Wrappers

  const SECOND: int := 1_000_000_000
  const CEILING: int := 300 * SECOND
  const TWO_63: int := 0x8000_0000_0000_0000
  const TWO_64: int := 0x1_0000_0000_0000_0000

  function Pow2(n: nat): (p: nat)
    ensures p >= 1
  {
    if n == 0 then 1 else 2 * Pow2(n - 1)
  }

  /** The int64 that holds the low 64 bits of x. */
  function Signed64(x: int): (r: int)
    ensures -TWO_63 <= r < TWO_63
  {
    (x + TWO_63) % TWO_64 - TWO_63
  }

  function ShiftedOne(k: nat): int {
    if k < 64 then Signed64(Pow2(k)) else 0
  }

  function DelayAfter(attempts: int): int {
    var raw := Signed64(ShiftedOne(Max(attempts, 1) - 1) * SECOND);
    if raw < SECOND then SECOND else if raw > CEILING then CEILING else raw
  }

  method ComputeBackoff(attempts: int) returns (backoff: int)
    ensures backoff == DelayAfter(attempts)
    ensures SECOND <= backoff <= CEILING
  {
    var a := attempts;
    if a < 1 {
      a := 1;
    }
    backoff := Signed64(ShiftedOne(a - 1) * SECOND);
    if backoff < SECOND {
      backoff := SECOND;
    }
    if backoff > CEILING {
      backoff := CEILING;
    }
  }

  /** What the backoff is meant to be: it doubles from one second up to five minutes. */
  function Intended(attempts: int): int
    requires attempts >= 1
  {
    Min(Pow2(attempts - 1), 300) * SECOND
  }

  /** Bit i of 5^9, the odd part of a second. */
  predicate OddPartBit(i: nat) {
    Pow2(i) <= 1_953_125 % Pow2(i + 1)
  }

  // ---- proofs ----

  lemma {:induction false} Pow2Add(a: nat, b: nat)
    ensures Pow2(a + b) == Pow2(a) * Pow2(b)
  {
    if a > 0 {
      Pow2Add(a - 1, b);
      assert Pow2(a + b) == 2 * Pow2(a - 1 + b) == 2 * (Pow2(a - 1) * Pow2(b));
    }
  }

  lemma {:induction false} Pow2Mono(a: nat, b: nat)
    requires a <= b
    ensures Pow2(a) <= Pow2(b)
  {
    if a < b {
      Pow2Mono(a, b - 1);
    }
  }

  lemma Pow2Facts()
    ensures Pow2(9) == 512 && Pow2(20) == 1_048_576
    ensures Pow2(33) == 8_589_934_592 && Pow2(43) == 8_796_093_022_208
    ensures Pow2(63) == TWO_63 && Pow2(64) == TWO_64
  {
    assert Pow2(4) == 16;
    Pow2Add(4, 5);
    Pow2Add(9, 9);
    Pow2Add(18, 2);
    Pow2Add(20, 13);
    Pow2Add(9, 4);
    Pow2Add(33, 10);
    Pow2Add(9, 1);
    Pow2Add(43, 20);
  }

  lemma SignedShift(x: int, h: int)
    ensures Signed64(x + h * TWO_64) == Signed64(x)
  {
    assert x + h * TWO_64 + TWO_63 == (x + TWO_63) + h * TWO_64;
    assert ((x + TWO_63) + h * TWO_64) % TWO_64 == (x + TWO_63) % TWO_64;
  }

  /** Up to 34 attempts nothing overflows. */
  lemma SmallBackoff(attempts: nat)
    requires 1 <= attempts <= 34
    ensures DelayAfter(attempts) == Intended(attempts)
  {
    Pow2Facts();
    Pow2Mono(attempts - 1, 33);
    var p := Pow2(attempts - 1);
    assert Signed64(p) == p;
    assert Signed64(p * SECOND) == p * SECOND;
  }

  /** odd * q, where p * q is 2^63, keeps only the part of `odd` below 2p. */
  lemma SplitProduct(odd: nat, p: nat, q: nat)
    requires p >= 1 && p * q == TWO_63
    ensures Signed64(odd * q) == Signed64(odd % (2 * p) * q)
  {
    var hi, lo := odd / (2 * p), odd % (2 * p);
    assert odd == hi * (2 * p) + lo;
    assert odd * q == lo * q + hi * TWO_64 by {
      assert hi * (2 * p) * q == hi * (2 * (p * q));
    }
    SignedShift(lo * q, hi);
  }

  lemma SignOfProduct(lo: nat, p: nat, q: nat)
    requires p >= 1 && p * q == TWO_63 && 1 <= lo < 2 * p
    requires q >= 8_796_093_022_208
    ensures p <= lo ==> Signed64(lo * q) < 0
    ensures lo < p ==> Signed64(lo * q) > CEILING
  {
    if p <= lo {
      assert p * q <= lo * q < (2 * p) * q == 2 * (p * q);
      assert Signed64(lo * q) == lo * q - TWO_64;
    } else {
      assert q <= lo * q < p * q;
      assert Signed64(lo * q) == lo * q;
    }
  }

  /** The wrapped product, seen through the one bit of 5^9 that lands on the sign. */
  lemma WrappedProduct(k: nat)
    requires 34 <= k <= 54
    ensures OddPartBit(54 - k) ==> Signed64(Pow2(k) * SECOND) < 0
    ensures !OddPartBit(54 - k) ==> Signed64(Pow2(k) * SECOND) > CEILING
  {
    var p, q := Pow2(54 - k), Pow2(k + 9);
    Pow2Facts();
    Pow2Add(54 - k, k + 9);
    Pow2Add(k, 9);
    Pow2Mono(43, k + 9);
    assert Pow2(k) * SECOND == 1_953_125 * q;
    SplitProduct(1_953_125, p, q);
    OddRemainder(p);
    SignOfProduct(1_953_125 % (2 * p), p, q);
  }

  lemma OddRemainder(p: nat)
    requires p >= 1
    ensures 1_953_125 % (2 * p) >= 1
  {
    var hi := 1_953_125 / (2 * p);
    assert 1_953_125 == 2 * (hi * p) + 1_953_125 % (2 * p);
  }

  lemma IntendedCeiling(attempts: nat)
    requires attempts >= 35
    ensures Intended(attempts) == CEILING
  {
    Pow2Facts();
    Pow2Mono(33, attempts - 1);
  }

  lemma MediumBackoff(attempts: nat)
    requires 35 <= attempts <= 55
    ensures DelayAfter(attempts) == if OddPartBit(55 - attempts) then SECOND else CEILING
  {
    var p := Pow2(attempts - 1);
    Pow2Facts();
    Pow2Mono(attempts - 1, 63 - 1);
    assert Pow2(63) == 2 * Pow2(62);
    assert Signed64(p) == p;
    WrappedProduct(attempts - 1);
  }

  /** Wrapping a factor first does not change a wrapped product. */
  lemma WrapOnce(a: int, b: int)
    ensures Signed64(Signed64(a) * b) == Signed64(a * b)
  {
    var c := (a + TWO_63) / TWO_64;
    assert Signed64(a) == a - c * TWO_64;
    assert Signed64(a) * b == a * b + (-(c * b)) * TWO_64;
    SignedShift(a * b, -(c * b));
  }

  lemma {:induction false} HighMultiple(k: nat)
    requires k >= 55
    ensures Pow2(k) * SECOND == 1_953_125 * Pow2(k - 55) * TWO_64
  {
    if k == 55 {
      Pow2Facts();
      Pow2Add(55, 9);
    } else {
      HighMultiple(k - 1);
    }
  }

  lemma HighProduct(k: nat)
    requires k >= 55
    ensures Signed64(Pow2(k) * SECOND) == 0
  {
    HighMultiple(k);
    SignedShift(0, 1_953_125 * Pow2(k - 55));
  }

  lemma LargeBackoff(attempts: nat)
    requires attempts >= 56
    ensures DelayAfter(attempts) == SECOND
  {
    var k: nat := attempts - 1;
    HighProduct(k);
    WrapOnce(Pow2(k), SECOND);
  }

  /**
  The retry delay is the intended one exactly up to 34 attempts and at those later attempts,
  up to 55, at which the bit of 5^9 that reaches the sign position is clear.  At every other
  number of attempts the product wraps and the delay falls back to one second.
  */
  lemma BackoffExact(attempts: nat)
    requires attempts >= 1
    ensures DelayAfter(attempts) == Intended(attempts)
       <==> attempts <= 34 || (attempts <= 55 && !OddPartBit(55 - attempts))
    ensures DelayAfter(attempts) != Intended(attempts) ==> DelayAfter(attempts) == SECOND
  {
    if attempts <= 34 {
      SmallBackoff(attempts);
    } else {
      IntendedCeiling(attempts);
      if attempts <= 55 {
        MediumBackoff(attempts);
      } else {
        LargeBackoff(attempts);
      }
    }
  }

  /** The first attempt at which the delay is wrong: one second instead of five minutes. */
  lemma ThirtyFifthAttempt()
    ensures DelayAfter(35) == SECOND && Intended(35) == CEILING
  {
    Pow2Facts();
    Pow2Add(20, 1);
    assert OddPartBit(20);
    IntendedCeiling(35);
    MediumBackoff(35);
  }
}
