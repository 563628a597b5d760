/** How long a repeated cause makes the next attempt wait. */
module Backoff {
  import opened Common

  const BASE_MINUTES: nat := 15
  const CEILING_MINUTES: nat := 360

  function Pow2(n: nat): (r: nat)
    ensures r >= 1
  {
    if n == 0 then 1 else 2 * Pow2(n - 1)
  }

  /** Minutes before the next attempt, given how many times in a row this cause stalled. */
  function ResumeDelay(streak: nat): nat
  {
    if streak <= 1 then 0
    else Min(BASE_MINUTES * Pow2(streak - 2), CEILING_MINUTES)
  }

  /** The least time between a streak's first stall and the start of its `n`-th attempt, in minutes. */
  function LeastWait(n: nat): nat
  {
    if n <= 6 then BASE_MINUTES * (Pow2(if n == 0 then 0 else n - 1) - 1)
    else 465 + CEILING_MINUTES * (n - 6)
  }

  lemma {:induction false} Pow2Grows(m: nat, n: nat)
    requires m <= n
    ensures Pow2(m) <= Pow2(n)
  {
    if n == 0 {
    } else if m < n {
      Pow2Grows(m, n - 1);
    } else {
      Pow2Grows(m - 1, n - 1);
    }
  }

  /** The delay never falls as a cause repeats, and reaches its ceiling exactly at the seventh stall in a row. */
  lemma DelayGrowsToCeiling(m: nat, n: nat)
    requires m <= n
    ensures ResumeDelay(m) <= ResumeDelay(n) <= CEILING_MINUTES
    ensures ResumeDelay(n) == CEILING_MINUTES <==> n >= 7
  {
    if n >= 2 {
      if m >= 2 { Pow2Grows(m - 2, n - 2); }
      if n >= 7 { Pow2Grows(5, n - 2); } else { Pow2Grows(n - 2, 4); }
      assert Pow2(5) == 32 && Pow2(4) == 16;
    }
  }

  /** The closed form of the accumulated delays. */
  lemma LeastWaitStep(n: nat)
    requires n >= 1
    ensures LeastWait(1) == 0
    ensures LeastWait(n + 1) == LeastWait(n) + ResumeDelay(n + 1)
  {
    DelayGrowsToCeiling(n + 1, n + 1);
    if n <= 5 {
      Pow2Grows(n - 1, 4);
      assert Pow2(4) == 16;
    } else if n == 6 {
      assert Pow2(5) == 32;
    }
  }
}
