# Maths quiz game: session engine

A model of the `GameSession` class of a timed true/false arithmetic quiz.
The game shows an expression `a op b` built from two 3-digit operands and an
operator from `+`, `-`, `*`, together with a proposed result (the
hypothesis). The player clicks "true" or "false". A correct judgement earns
5 points and one level, and a new question is served after every click. A
20-second countdown, driven by a one-second interval, ends the session.

The source is one file holding one class, `GameSession`; the model divides it into five modules of its own:
- `outcomes.dfy`: `undefined` as `Option`, thrown errors as `Result`.
- `arithmetic.dfy`: operators and the evaluation of `a op b`, with bounds for 3-digit operands.
- `random.dfy`: the random helpers, with `Math.random()` replaced by the integer the caller drew.
- `clock.dfy`: the interval callback as a pure step on the counter, and what a run of ticks does.
- `session.dfy`: the `GameSession` class. Its fields are updated in place by `ResetState`, `StartTimer`, `GenerateQuestion`, `GenerateHypothesis`, `Tick` and `AnswerClick`. Its invariant `Valid()` holds throughout:
  - `0 <= currentTimerSecond <= 20`;
  - `currentScore == 5 * (currentLevel - 1)` and `currentLevel >= 1`;
  - `isGameOver` stays false;
  - the verdict `currentAnswer` is true exactly when the hypothesis equals the true result.

Randomness is passed in. A `Draws` record holds the five values one question
consumes: two operand offsets in `[0, 900)`, an operator index in `[0, 3)`,
the fake/truthful coin, and a perturbation offset in `[0, 20)`. The id that
`setInterval` returns is a `handle` parameter. The browser's table of live
intervals is the ghost field `liveIntervals`.

Behaviour of the code that the model keeps as written:
- The countdown shows game over on the 21st tick, not the 20th. Ticks 1-20 take the counter to 20. Tick 21 shows game over, puts the counter back to 0 and clears the stored interval.
- A fake hypothesis whose perturbation comes out 0 is shown as truthful. No new draw is made.
- Answers are not refused after game over (`AnswerAfterGameOver`).
- `isGameOver` is never set to true.
- Replaying does not clear an interval that is still running. `#resetState` only overwrites the stored id (src/scripts.js:72), so `InitSession` only adds to `liveIntervals`.

## Model

| member | source | states |
|---|---|---|
| Arithmetic.Calculate | src/scripts.js:204-209 | the result of `a op b` for `+`, `-`, `*`; the inverse operation recovers `a` (subtracting or adding `b`, exact division by a nonzero `b`) |
| Arithmetic.ThreeDigitResultBounds | src/scripts.js:129-133 | for 3-digit operands: a sum in [200, 1998], a difference in [-899, 899], a product in [10000, 998001]; so every result is a safe JavaScript integer and the integer model of `eval` is exact |
| Random.Pow10 | src/scripts.js:186 | `10 ** (length - 1)` is at least 1, so the draw range `[0, 9 * min)` of every positive length is non-empty |
| Random.RandomNumberByLength | src/scripts.js:179-190 | a length of 0 or less is the "length must be larger than 0" error; otherwise the result has exactly `length` digits, in [10^(length-1), 10^length - 1] ([100, 999] for 3) |
| Random.RandomNumberByLengthAsWritten | src/scripts.js:182-189 | as written: only length 0 throws; it agrees with the corrected function on every positive length |
| Random.NegativeLengthPassesGuard | src/scripts.js:182-184 | length -1 passes the guard and yields 0, which the corrected function refuses |
| Random.ByLengthDrawsCoverRange | src/scripts.js:186-189 | every number of the given length is produced by the draw `v - 10^(length-1)` |
| Random.RandomOperator | src/scripts.js:192-197 | the result is an element of the candidate list; it is `undefined` exactly when the list is empty |
| Random.EveryDefaultOperatorDrawable | src/scripts.js:192-196 | each of `+`, `-`, `*` is drawn by some index |
| Random.RandomNumberBetween | src/scripts.js:199-202 | the result lies in [minNum, maxNum); it is minNum for an empty range and within [maxNum, minNum] for a reversed one |
| Clock.TickStep | src/scripts.js:48-59 | a tick shows game over exactly when the counter has reached the duration; it then resets the counter to 0, and otherwise adds 1; a counter within [0, duration] stays within it |
| Clock.AfterTicks | src/scripts.js:47-60 | any number of ticks from a counter within [0, duration] leaves it within [0, duration]; there are at most as many game-overs as ticks |
| Clock.QuietTicks | src/scripts.js:52-58 | from 0, the first `duration` ticks bring the counter to exactly n after n ticks, with no game over |
| Clock.ExpiresOnTickAfterDuration | src/scripts.js:48-51 | after `duration` quiet ticks the counter equals the duration; the next tick is the first game over and leaves the counter at 0 |
| Session.ParseUserAnswer | src/scripts.js:160-164 | "true" gives true, "false" gives false, any other value is the "failed to get user answer" error |
| Session.GameSession.constructor | src/scripts.js:13-28 | counter 0, score 0, level 1, no round, no interval; the invariant holds |
| Session.GameSession.Run | src/scripts.js:42-44 | starts the first session exactly as `InitSession` does |
| Session.GameSession.StartTimer | src/scripts.js:46-47 | stores the new interval id and adds that interval to the live ones |
| Session.GameSession.Tick | src/scripts.js:47-60 | the new counter and the game-over signal are those of `TickStep` with duration 20; a game-over tick clears the stored interval and no other; the invariant (counter within [0, 20]) is kept |
| Session.GameSession.InitSession | src/scripts.js:63-68 | counter 0, score 0, level 1, a round drawn from the given draws, the new interval stored; every interval live before is still live |
| Session.GameSession.ResetState | src/scripts.js:70-82 | counter 0, score 0, level 1, not game over; question, hypothesis, verdict and interval id cleared; live intervals untouched |
| Session.GameSession.GenerateQuestion | src/scripts.js:128-136 | two 3-digit operands and an operator from the draws; the hypothesis within [-10, 9] of the true result; the verdict true exactly when the hypothesis equals the true result |
| Session.GameSession.GenerateHypothesis | src/scripts.js:138-157 | truthful draw: the hypothesis is the result; fake draw: the result plus `d - 10`; the hypothesis is reported fake exactly when it differs from the result, which covers a zero offset |
| Session.GameSession.AnswerClick | src/scripts.js:159-173 | an unrecognised button value throws with no state change; a match with the verdict adds exactly 5 to the score and 1 to the level, a mismatch changes neither; either way a new round from the draws replaces the old one; score and level never decrease |
| Session.UninterruptedSession | src/scripts.js:47-60 | a session left alone runs the interval callback exactly 21 times before the interval clears itself; it ends with counter 0 and score 0 |
| Session.AnswerAfterGameOver | src/scripts.js:159-173 | a correct answer clicked after the game-over tick still brings score 5 and level 2 |

## Left out

- DOM access and rendering are not modelled: element lookup, event-listener wiring, `#initUI`, `#updateProgressBarUIBySecond` (a float percentage), `#updateStatusUI` with its `prevScore`/`prevLevel` bookkeeping, `#updateQuestionUI`, `#updateHypothesisUI` and `#updateGameOverScreenUI`. The model turns the game-over screen into `Tick`'s `gameOver` result.
- `#newQuestion` is `#generateQuestion` plus two display updates, so the model calls `GenerateQuestion` directly.
- The question text `${a} ${operator} ${b}` is display formatting. The model keeps the operands and operator as a `Question` value.
- The `setInterval` scheduler and its 1000 ms cadence are not modelled. The model has the callback body (`Tick`) and the id bookkeeping. When intervals fire, and how two leaked intervals interleave, is left out.
- `Math.random` and `Math.floor` over floating point become integer draws with the ranges stated above. `eval` becomes `Calculate` over an operator enum.
- `btnPlayGameOnClickListener` only calls `#initSession`, which is `InitSession`. The top-level `run()` function only constructs a session and calls `Run`.
- The `operators` field is not modelled: it is unused, because `#randomOperator()` is called with no argument and uses its default list.
- `countUnitMillisecond` is the 1000 ms delay passed to `setInterval`; it is left out with the scheduler.
- Random.RandomNumberByLengthAsWritten: non-integer lengths are not modelled, only integers.
- Random.RandomNumberByLength / Random.ByLengthDrawsCoverRange: the source computes `Math.floor(min + Math.random() * n)` in doubles, while the model uses exact integers. The range and coverage claims match the source only while 10^length <= 2^53, that is length <= 15. From length 16 the largest draw rounds up to a number with one digit too many, and odd values above 2^53 cannot be produced; from length 310 `min` is Infinity. The game only asks for length 3.

## Findings

| source | as written | input that shows it | evidently intended | confidence | as-written member | corrected member |
|---|---|---|---|---|---|---|
| src/scripts.js:182-184 | only `length === 0` throws | length -1 passes the guard and returns 0, a number without the requested digits | every length of 0 or less throws "length must be larger than 0" | high; not executed (the game only ever asks for length 3) | Random.RandomNumberByLengthAsWritten, Random.NegativeLengthPassesGuard | Random.RandomNumberByLength |
