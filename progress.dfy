/**
 * The simulated progress bar of both upload forms: while a request is
 * pending, an interval callback runs `setProgress(prev => Math.min(prev + 10, 90))`;
 * a received response sets it to 100.
 */
module Progress {

  const Step := 10
  const Cap := 90
  const Done := 100

  /** Every value the bar takes: a multiple of ten between 0 and 100. */
  predicate Displayable(p: int) {
    0 <= p <= Done && p % Step == 0
  }

  /** One interval callback: `Math.min(prev + 10, 90)`. */
  function Advance(p: int): (q: int)
    ensures q <= Cap
    ensures p <= Cap ==> p <= q
    ensures q == p <==> p == Cap
    ensures Displayable(p) ==> Displayable(q)
  {
    if p + Step <= Cap then p + Step else Cap
  }

  /** `k` interval callbacks in a row. */
  function AdvanceTimes(p: int, k: nat): int
    decreases k
  {
    if k == 0 then p else AdvanceTimes(Advance(p), k - 1)
  }

  /**
   * Starting at or below the cap, `k` callbacks give `min(p + 10 * k, 90)`:
   * the bar climbs by ten per callback and then stays at 90.
   */
  lemma {:induction false} AdvanceTimesValue(p: int, k: nat)
    requires p <= Cap
    ensures AdvanceTimes(p, k) == if p + Step * k <= Cap then p + Step * k else Cap
    decreases k
  {
    if k > 0 {
      AdvanceTimesValue(Advance(p), k - 1);
    }
  }

  /** From submission (progress 0), at most nine callbacks reach the cap, and none passes it. */
  lemma {:induction false} PendingProgressBounded(k: nat)
    ensures Displayable(AdvanceTimes(0, k)) && AdvanceTimes(0, k) <= Cap
    ensures k >= 9 ==> AdvanceTimes(0, k) == Cap
  {
    AdvanceTimesValue(0, k);
  }

  /** Callbacks never lower a bar at or below the cap: more callbacks, no less progress. */
  lemma {:induction false} AdvanceTimesMonotone(p: int, k1: nat, k2: nat)
    requires p <= Cap && k1 <= k2
    ensures p <= AdvanceTimes(p, k1) <= AdvanceTimes(p, k2) <= Cap
  {
    AdvanceTimesValue(p, k1);
    AdvanceTimesValue(p, k2);
  }
}
