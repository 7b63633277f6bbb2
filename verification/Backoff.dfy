/** When the retry delay is what the comment in the source promises: 30 * 2^(a-1) seconds. */
module Backoff {
  import opened QueueState

  function Delay(attempts: nat): nat
    requires attempts >= 1
  {
    30 * Pow2(attempts - 1)
  }

  lemma {:induction false} Pow2Monotone(m: nat, n: nat)
    requires m <= n
    ensures Pow2(m) <= Pow2(n)
  {
    if m < n {
      Pow2Monotone(m, n - 1);
    }
  }

  lemma Pow2Values()
    ensures Pow2(28) == 0x1000_0000 && Pow2(29) == 0x2000_0000
  {
    assert Pow2(4) == 16;
    assert Pow2(8) == 256;
    assert Pow2(12) == 0x1000;
    assert Pow2(16) == 0x1_0000;
    assert Pow2(20) == 0x10_0000;
    assert Pow2(24) == 0x100_0000;
  }

  /** The delay is exact exactly up to the 29th failure; from the 30th on, the
      nanosecond count no longer fits 64 bits. */
  lemma DelayExactIffAtMost29(now: int, attempts: nat)
    requires attempts >= 1
    ensures NextRun(now, attempts) == now + Delay(attempts) <==> attempts <= 29
  {
    Pow2Values();
    if attempts <= 29 {
      Pow2Monotone(attempts - 1, 28);
      assert 0 <= Delay(attempts) * SECOND <= MAX_INT64;
    } else {
      Pow2Monotone(29, attempts - 1);
      assert BackoffNanos(attempts) <= MAX_INT64;
      assert MAX_INT64 / SECOND < Delay(attempts);
    }
  }

  /** The 30th failure is retried at once: its next run lies before the failure itself. */
  lemma ThirtiethRetryHasNoDelay(now: int)
    ensures NextRun(now, 30) < now
  {
    Pow2Values();
    var nanos := 30 * 0x2000_0000 * SECOND;
    assert Wrap64(nanos) == nanos - 0x1_0000_0000_0000_0000;
  }
}
