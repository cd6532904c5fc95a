/** The body of the `setInterval` callback in `#startTimer` as a pure step on
    the elapsed-seconds counter, and what a run of such steps does. */
module Clock {

  /** What one tick leaves behind: the new counter and whether the tick showed
      the game-over screen (and cleared its interval). */
  datatype TickOutcome = TickOutcome(timer: int, gameOver: bool)

  /** The counter after some ticks and how many of them showed game over. */
  datatype Trace = Trace(timer: int, gameOvers: nat)

  /** One tick: count up while below the duration; at or past it, show game
      over and start the counter again from 0. */
  function TickStep(timer: int, duration: int): (o: TickOutcome)
    ensures o.gameOver <==> timer >= duration
    ensures 0 <= timer <= duration ==> 0 <= o.timer <= duration
    ensures o.gameOver ==> o.timer == 0
    ensures !o.gameOver ==> o.timer == timer + 1
  {
    if timer >= duration then TickOutcome(0, true)
    else TickOutcome(timer + 1, false)
  }

  /** n ticks in a row, starting from the counter `timer`. */
  function AfterTicks(timer: int, duration: int, n: nat): (t: Trace)
    ensures 0 <= timer <= duration ==> 0 <= t.timer <= duration
    ensures t.gameOvers <= n
  {
    if n == 0 then Trace(timer, 0)
    else
      var before := AfterTicks(timer, duration, n - 1);
      var step := TickStep(before.timer, duration);
      Trace(step.timer, before.gameOvers + if step.gameOver then 1 else 0)
  }

  /** From a reset counter, the first `duration` ticks only count up. */
  lemma {:induction false} QuietTicks(duration: nat, n: nat)
    requires n <= duration
    ensures AfterTicks(0, duration, n) == Trace(n, 0)
  {
    if n > 0 {
      QuietTicks(duration, n - 1);
    }
  }

  /** The tick after those `duration` ticks is the first to show game over,
      and it puts the counter back to 0. */
  lemma {:induction false} ExpiresOnTickAfterDuration(duration: nat)
    ensures AfterTicks(0, duration, duration) == Trace(duration, 0)
    ensures TickStep(duration, duration) == TickOutcome(0, true)
    ensures AfterTicks(0, duration, duration + 1) == Trace(0, 1)
  {
    QuietTicks(duration, duration);
  }
}
