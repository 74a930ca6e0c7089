/** The strategy countdown of src/logic/state.js, `getStrategyTimeRemaining`. */
module Timing {
  import Config

  /** `Math.max(0, STRATEGY_DURATION - elapsed)`, in milliseconds. */
  function RemainingMillis(startedAt: nat, now: nat): (m: nat)
    ensures now >= startedAt ==> m <= Config.StrategyDuration
    ensures m == 0 <==> now - startedAt >= Config.StrategyDuration
  {
    var left := Config.StrategyDuration as int - (now as int - startedAt as int);
    if left > 0 then left else 0
  }

  /**
   * `getStrategyTimeRemaining`: 0 while the scheduler is stopped; otherwise the remaining
   * milliseconds rounded up to whole seconds. While running it is 0 exactly when the strategy
   * duration has elapsed, and it never exceeds the duration in seconds once the clock has
   * reached the start time.
   */
  function Countdown(running: bool, startedAt: nat, now: nat): (r: nat)
    ensures !running ==> r == 0
    ensures running ==> (r - 1) * 1000 < RemainingMillis(startedAt, now) <= r * 1000
    ensures running ==> (r == 0 <==> now - startedAt >= Config.StrategyDuration)
    ensures now >= startedAt ==> r <= Config.StrategyDuration / 1000
  {
    if !running then 0 else (RemainingMillis(startedAt, now) + 999) / 1000
  }

  /** As the clock advances the countdown never goes up. */
  lemma CountdownNeverRises(running: bool, startedAt: nat, now: nat, later: nat)
    requires now <= later
    ensures Countdown(running, startedAt, later) <= Countdown(running, startedAt, now)
  {
    if running {
      var a := RemainingMillis(startedAt, later);
      var b := RemainingMillis(startedAt, now);
      assert a <= b;
    }
  }
}
