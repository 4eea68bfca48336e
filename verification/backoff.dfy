/** The retry schedules: the outbox's shifted delay, and the doubling loops of the push reopen
    and of the event source reconnect. Durations are int64 nanoseconds. */
module Backoff {

  const SECOND: int := 1_000_000_000
  const TWO63: int := 0x8000_0000_0000_0000
  const TWO64: int := 0x1_0000_0000_0000_0000
  const CAP: int := 30 * SECOND

  function Min(a: int, b: int): int { if a <= b then a else b }

  function Pow2(n: nat): (p: int)
    ensures p >= 1
  {
    if n == 0 then 1 else 2 * Pow2(n - 1)
  }

  /** The int64 a mathematical integer wraps to. */
  function Wrap64(x: int): (w: int)
    ensures -TWO63 <= w < TWO63
    ensures exists k :: w == x + k * TWO64
  {
    var w := (x + TWO63) % TWO64 - TWO63;
    assert w == x + (-((x + TWO63) / TWO64)) * TWO64;
    w
  }

  /** The outbox's delay before retry `attempt`: a wrapping shift, then two guards. */
  function Delay(attempt: nat): (d: int)
  {
    var d := Wrap64(SECOND * Pow2(attempt));
    if d <= 0 || d > CAP then CAP else d
  }

  lemma {:induction false} Pow2Splits(a: nat, b: nat)
    ensures Pow2(a + b) == Pow2(a) * Pow2(b)
  {
    if a == 0 {
    } else {
      Pow2Splits(a - 1, b);
      assert Pow2(a + b) == 2 * Pow2(a - 1 + b);
    }
  }

  lemma {:induction false} Pow2Grows(a: nat, b: nat)
    requires a <= b
    ensures Pow2(a) <= Pow2(b)
    decreases b
  {
    if a < b { Pow2Grows(a, b - 1); }
  }

  /** A wrapped multiple of 2^43 is never a small positive number. */
  lemma WrapKeepsFactor(x: int, q: int)
    requires x == q * 0x800_0000_0000
    ensures Wrap64(x) <= 0 || Wrap64(x) >= 0x800_0000_0000
  {
    var w := Wrap64(x);
    var k :| w == x + k * TWO64;
    assert w == (q + k * 0x20_0000) * 0x800_0000_0000;
  }

  lemma SmallPowers()
    ensures Pow2(5) == 32 && Pow2(33) == 0x2_0000_0000 && Pow2(34) == 0x4_0000_0000
  {
    assert Pow2(5) == 32;
    assert Pow2(10) == 1024;
    Pow2Splits(10, 10); Pow2Splits(20, 10); Pow2Splits(30, 3); Pow2Splits(30, 4);
  }

  /** The product fits an int64: nothing wraps. */
  lemma NoWrap(x: int)
    requires -TWO63 <= x < TWO63
    ensures Wrap64(x) == x
  {
  }

  /** From attempt 34 on the product is a multiple of 2^43, so the wrapped shift is out of the
      guards' range and the delay is the cap. */
  lemma OverflowIsCapped(p: int, rest: int)
    requires p == 0x4_0000_0000 * rest
    ensures Wrap64(SECOND * p) <= 0 || Wrap64(SECOND * p) > CAP
  {
    WrapKeepsFactor(SECOND * p, 1953125 * rest);
  }

  /** Overflow never shortens the delay: at every attempt count the shift waits
      min(2^attempt, 30) seconds exactly. */
  lemma DelayIsCappedDoubling(attempt: nat)
    ensures Delay(attempt) == Min(Pow2(attempt), 30) * SECOND
  {
    SmallPowers();
    var p := Pow2(attempt);
    if attempt <= 33 {
      Pow2Grows(attempt, 33);
      NoWrap(SECOND * p);
    } else {
      Pow2Grows(5, attempt);
      Pow2Splits(34, attempt - 34);
      OverflowIsCapped(p, Pow2(attempt - 34));
    }
  }

  /** min(least * 2^n, most), the schedule both doubling loops compute. */
  function Schedule(least: int, most: int, n: nat): int { Min(least * Pow2(n), most) }

  /** The push reopen bound. Each doubling stays an int64, so the loop never wraps. */
  method ReopenBound(attempt: nat, minDelay: int, maxDelay: int) returns (bound: int)
    requires 0 <= minDelay && 0 <= maxDelay && 2 * maxDelay < TWO63
    ensures bound == Schedule(minDelay, maxDelay, attempt)
  {
    bound := Min(minDelay, maxDelay);
    for i := 0 to attempt
      invariant bound == Schedule(minDelay, maxDelay, i)
    {
      assert Pow2(i + 1) == 2 * Pow2(i);
      assert minDelay * Pow2(i + 1) == 2 * (minDelay * Pow2(i));
      assert 0 <= bound * 2 < TWO63;
      bound := Min(bound * 2, maxDelay);
    }
  }

  const RECONNECT_MIN: int := 250_000_000
  const RECONNECT_MAX: int := 30 * SECOND

  /** How long the event source waits before it connects again: doubling until a connection
      has lasted. */
  class Reconnect {
    var attempt: nat

    constructor ()
      ensures attempt == 0
    {
      attempt := 0;
    }

    /** The delay bound after a connection that lasted connectedFor. */
    method Bound(connectedFor: int) returns (d: int)
      modifies this
      ensures var failures := if connectedFor >= RECONNECT_MAX then 0 else old(attempt);
              d == Schedule(RECONNECT_MIN, RECONNECT_MAX, failures) && attempt == failures + 1
    {
      if connectedFor >= RECONNECT_MAX { attempt := 0; }
      d := RECONNECT_MIN;
      for i := 0 to attempt
        invariant d == Schedule(RECONNECT_MIN, RECONNECT_MAX, i)
      {
        assert Pow2(i + 1) == 2 * Pow2(i);
        d := Min(d * 2, RECONNECT_MAX);
      }
      attempt := attempt + 1;
    }
  }

  /** The schedule never shortens, and reaches its cap and stays there. */
  lemma ScheduleClimbs(least: int, most: int, a: nat, b: nat)
    requires 0 <= least && a <= b
    ensures Schedule(least, most, a) <= Schedule(least, most, b) <= most
  {
    Pow2Grows(a, b);
    assert least * Pow2(a) <= least * Pow2(b);
  }
}
