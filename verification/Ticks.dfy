/** The periodic loops: a wrapping 32-bit tick counter decides when schedules are looked at. */
module Ticks {
  const SHARE_PERIOD: nat := 15
  const HOST_PERIOD: nat := 10
  const WRAP: nat := 0x1_0000_0000

  class Loop {
    const period: nat
    var count: nat

    constructor (period: nat)
      ensures this.period == period && count == 0
    {
      this.period := period;
      count := 0;
    }

    /** One tick: whether schedules are looked at. */
    method Tick() returns (check: bool)
      requires period > 0 && count < WRAP
      modifies this
      ensures check == (old(count) % period == 0)
      ensures count == if old(count) == WRAP - 1 then 0 else old(count) + 1
      ensures forall n: nat :: old(count) == Counter(n) ==> count == Counter(n + 1)
    {
      check := count % period == 0;
      count := if count == WRAP - 1 then 0 else count + 1;
    }
  }

  /** The counter at the `n`-th tick, counted from 0. */
  function Counter(n: nat): (count: nat)
    ensures count < WRAP
  {
    if n == 0 || Counter(n - 1) == WRAP - 1 then 0 else Counter(n - 1) + 1
  }

  /** Counting with wrap-around is counting modulo 2^32. */
  lemma {:induction false} CounterIsModulo(n: nat)
    ensures Counter(n) == n % WRAP
  {
    if n > 0 {
      CounterIsModulo(n - 1);
    }
  }

  predicate Checks(n: nat, period: nat)
    requires period > 0
  {
    Counter(n) % period == 0
  }

  lemma {:induction false} CounterAfter(n: nat, k: nat)
    requires k < WRAP
    ensures Counter(n + k) == if Counter(n) + k < WRAP then Counter(n) + k else Counter(n) + k - WRAP
  {
    if k > 0 {
      CounterAfter(n, k - 1);
      assert n + k - 1 == n + (k - 1);
    }
  }

  /** How long after a check at tick `n` the next one comes: a full period, unless the counter
      wraps before. */
  function Gap(n: nat, period: nat): int {
    if Counter(n) + period < WRAP then period else WRAP - Counter(n)
  }

  lemma Multiples(q: nat, k: nat, period: nat)
    requires period == SHARE_PERIOD || period == HOST_PERIOD
    requires k < period
    ensures (period * q + k) % period == k
  {
    if period == SHARE_PERIOD {
      assert (15 * q + k) % 15 == k;
    } else {
      assert (10 * q + k) % 10 == k;
    }
  }

  /** From every check on, however long the loop runs, the next check comes exactly one gap
      later; across a wrap the gap is 2^32 modulo the period. */
  lemma NextCheck(n: nat, period: nat, k: nat)
    requires period == SHARE_PERIOD || period == HOST_PERIOD
    requires Checks(n, period) && 0 < k <= Gap(n, period)
    ensures Checks(n + k, period) <==> k == Gap(n, period)
    ensures 0 < Gap(n, period) <= period
    ensures Gap(n, period) != period ==> Gap(n, period) == WRAP % period
  {
    var count := Counter(n);
    var q := count / period;
    assert count == period * q;
    CounterAfter(n, k);
    if count + k < WRAP {
      if k < period {
        Multiples(q, k, period);
      } else {
        assert count + k == period * (q + 1) + 0;
        Multiples(q + 1, 0, period);
      }
    }
    if count + period >= WRAP {
      assert WRAP % period == if period == SHARE_PERIOD then 1 else 6;
      WrapGap(q, period);
    }
  }

  lemma WrapGap(q: nat, period: nat)
    requires period == SHARE_PERIOD || period == HOST_PERIOD
    requires period * q < WRAP <= period * q + period
    ensures WRAP - period * q == if period == SHARE_PERIOD then 1 else 6
  {
    if period == SHARE_PERIOD {
      assert WRAP == 15 * 286331153 + 1;
      assert q == 286331153;
    } else {
      assert WRAP == 10 * 429496729 + 6;
      assert q == 429496729;
    }
  }
}
