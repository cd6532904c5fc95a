/** The `GameSession` object: its state fields and the methods that update
    them in place. The DOM, the interval scheduler and `Math.random` are
    outside; the random values come in as a `Draws` record and the id that
    `setInterval` returns comes in as `handle`. */
module Session {
  import opened Outcomes
  import opened Arithmetic
  import opened Random
  import opened Clock

  /** `sessionDurationSecond`: a session lasts 20 seconds. */
  const SESSION_DURATION_SECOND: int := 20

  /** The question shown to the player, `a operator b`. */
  datatype Question = Question(left: int, op: Operator, right: int) {
    /** The true value of the expression. */
    function Result(): int {
      Calculate(op, left, right)
    }
  }

  /** The random values one question consumes, in the order the game draws
      them: two operand offsets, the operator index, the coin that decides a
      fake hypothesis, and the offset of the perturbation. */
  datatype Draws = Draws(left: int, right: int, opIndex: int, fake: bool, delta: int)

  predicate ValidDraws(dr: Draws) {
    0 <= dr.left < 900 && 0 <= dr.right < 900 &&
    0 <= dr.opIndex < |DEFAULT_OPERATORS| && 0 <= dr.delta < 20
  }

  /** The value of the clicked answer button: "true" or "false", anything
      else is an error. */
  function ParseUserAnswer(value: string): (r: Result<bool>)
    ensures r.Ok? <==> value == "true" || value == "false"
    ensures r.Ok? ==> (r.value <==> value == "true")
    ensures r.Err? ==> r.error == UnrecognizedUserAnswer
  {
    if value == "true" then Ok(true)
    else if value == "false" then Ok(false)
    else Err(UnrecognizedUserAnswer)
  }

  class GameSession {
    var currentTimerSecond: int
    var currentSession: Option<nat>     // id of the interval last started
    var currentScore: int
    var currentLevel: int
    var currentQuestion: Option<Question>
    var currentHypothesis: Option<int>
    var currentAnswer: Option<bool>
    var currentUserAnswer: Option<bool>
    var isGameOver: bool
    /** The intervals the browser still fires (not a field of the game). */
    ghost var liveIntervals: set<nat>

    /** The round on display is either absent, or made of two 3-digit
        operands, a hypothesis within [-10, 9] of the true result, and a
        verdict that is true exactly when the hypothesis is the true result. */
    ghost predicate RoundConsistent()
      reads this
    {
      (currentQuestion.None? && currentHypothesis.None? && currentAnswer.None?) ||
      (currentQuestion.Some? && currentHypothesis.Some? && currentAnswer.Some? &&
       IsThreeDigit(currentQuestion.value.left) && IsThreeDigit(currentQuestion.value.right) &&
       -10 <= currentHypothesis.value - currentQuestion.value.Result() <= 9 &&
       (currentAnswer.value <==> currentHypothesis.value == currentQuestion.value.Result()))
    }

    /** The state every method keeps. */
    ghost predicate Valid()
      reads this
    {
      0 <= currentTimerSecond <= SESSION_DURATION_SECOND &&
      currentLevel >= 1 && currentScore == 5 * (currentLevel - 1) &&
      !isGameOver && currentUserAnswer.None? &&
      RoundConsistent()
    }

    /** The round on display is the one the draws `dr` produce. */
    ghost predicate RoundFrom(dr: Draws)
      requires ValidDraws(dr)
      reads this
    {
      currentQuestion.Some? && currentHypothesis.Some? && currentAnswer.Some? &&
      var q := currentQuestion.value;
      RandomNumberByLength(3, dr.left) == Ok(q.left) &&
      RandomNumberByLength(3, dr.right) == Ok(q.right) &&
      RandomOperator(DEFAULT_OPERATORS, dr.opIndex) == Some(q.op) &&
      currentHypothesis.value == q.Result() + (if dr.fake then RandomNumberBetween(-10, 10, dr.delta) else 0) &&
      (currentAnswer.value <==> currentHypothesis.value == q.Result())
    }

    constructor ()
      ensures Valid()
      ensures currentTimerSecond == 0 && currentSession == None
      ensures currentScore == 0 && currentLevel == 1
      ensures currentQuestion == None && currentHypothesis == None && currentAnswer == None
      ensures liveIntervals == {}
    {
      currentTimerSecond := 0;
      currentSession := None;
      currentScore := 0;
      currentLevel := 1;
      currentQuestion := None;
      currentHypothesis := None;
      currentAnswer := None;
      currentUserAnswer := None;
      isGameOver := false;
      liveIntervals := {};
    }

    /** `run()`: start the first session. */
    method Run(dr: Draws, handle: nat)
      requires ValidDraws(dr) && handle !in liveIntervals
      modifies this
      ensures Valid()
      ensures currentTimerSecond == 0 && currentScore == 0 && currentLevel == 1
      ensures RoundFrom(dr)
      ensures currentSession == Some(handle)
      ensures liveIntervals == old(liveIntervals) + {handle}
    {
      InitSession(dr, handle);
    }

    /** `#startTimer`: register the interval and remember its id. */
    method StartTimer(handle: nat)
      requires handle !in liveIntervals
      modifies this`currentSession, this`liveIntervals
      ensures currentSession == Some(handle)
      ensures liveIntervals == old(liveIntervals) + {handle}
    {
      currentSession := Some(handle);
      liveIntervals := liveIntervals + {handle};
    }

    /** One run of the interval callback. `gameOver` is whether the tick shows
        the game-over screen; that tick also clears the interval whose id is
        stored, which need not be the one that fired. */
    method Tick() returns (gameOver: bool)
      requires Valid()
      modifies this`currentTimerSecond, this`liveIntervals
      ensures Valid()
      ensures TickOutcome(currentTimerSecond, gameOver) == TickStep(old(currentTimerSecond), SESSION_DURATION_SECOND)
      ensures liveIntervals ==
                if gameOver && currentSession.Some? then old(liveIntervals) - {currentSession.value}
                else old(liveIntervals)
    {
      if currentTimerSecond >= SESSION_DURATION_SECOND {
        gameOver := true;
        currentTimerSecond := 0;
        if currentSession.Some? {
          liveIntervals := liveIntervals - {currentSession.value};
        }
      } else {
        gameOver := false;
        currentTimerSecond := currentTimerSecond + 1;
      }
    }

    /** `#initSession`: reset, serve a question, then start the clock. An
        interval started earlier stays live: nothing clears it. */
    method InitSession(dr: Draws, handle: nat)
      requires ValidDraws(dr) && handle !in liveIntervals
      modifies this
      ensures Valid()
      ensures currentTimerSecond == 0 && currentScore == 0 && currentLevel == 1
      ensures RoundFrom(dr)
      ensures currentSession == Some(handle)
      ensures liveIntervals == old(liveIntervals) + {handle}
    {
      ResetState();
      GenerateQuestion(dr);
      StartTimer(handle);
    }

    /** `#resetState`: score 0, level 1, counter 0, no round, no interval id. */
    method ResetState()
      modifies this
      ensures Valid()
      ensures currentTimerSecond == 0 && currentSession == None
      ensures currentScore == 0 && currentLevel == 1
      ensures currentQuestion == None && currentHypothesis == None && currentAnswer == None
      ensures liveIntervals == old(liveIntervals)
    {
      currentTimerSecond := 0;
      currentSession := None;
      currentScore := 0;
      currentLevel := 1;
      currentQuestion := None;
      currentHypothesis := None;
      currentAnswer := None;
      currentUserAnswer := None;
      isGameOver := false;
    }

    /** `#generateQuestion`: draw two 3-digit operands and an operator, then a
        hypothesis; the verdict is the negation of "the hypothesis is fake". */
    method GenerateQuestion(dr: Draws)
      requires ValidDraws(dr)
      modifies this`currentQuestion, this`currentHypothesis, this`currentAnswer
      ensures RoundFrom(dr) && RoundConsistent()
    {
      var a := RandomNumberByLength(3, dr.left);
      var b := RandomNumberByLength(3, dr.right);
      var op := RandomOperator(DEFAULT_OPERATORS, dr.opIndex);
      var q := Question(a.value, op.value, b.value);
      currentQuestion := Some(q);
      var result := Calculate(op.value, a.value, b.value);
      var isFakeAnswer := GenerateHypothesis(result, dr.fake, dr.delta);
      currentAnswer := Some(if isFakeAnswer then false else true);
    }

    /** `#generateHypothesis(result)`: on a fake draw show `result` plus an
        offset in [-10, 9], falling back to "truthful" when that offset is 0;
        otherwise show `result`. Returns whether the hypothesis is fake. */
    method GenerateHypothesis(result: int, fakeDraw: bool, d: int) returns (isFakeAnswer: bool)
      requires 0 <= d < 20
      modifies this`currentHypothesis
      ensures currentHypothesis.Some?
      ensures currentHypothesis.value == result + (if fakeDraw then RandomNumberBetween(-10, 10, d) else 0)
      ensures -10 <= currentHypothesis.value - result <= 9
      ensures isFakeAnswer <==> currentHypothesis.value != result
    {
      isFakeAnswer := fakeDraw;
      var hypothesis;
      if isFakeAnswer {
        var randomNumber := RandomNumberBetween(-10, 10, d);
        if randomNumber == 0 {
          isFakeAnswer := false;
        }
        hypothesis := result + randomNumber;
      } else {
        hypothesis := result;
      }
      currentHypothesis := Some(hypothesis);
    }

    /** `btnUserAnswerOnClickListener`: read the clicked button's value; a
        value other than "true"/"false" throws before anything changes.
        Otherwise a match with the verdict earns 5 points and a level, and a
        new question replaces the old one either way. `r` is Ok(whether the
        answer matched). Nothing checks whether the session is over. */
    method AnswerClick(elementValue: string, dr: Draws) returns (r: Result<bool>)
      requires Valid() && ValidDraws(dr)
      modifies this`currentScore, this`currentLevel, this`currentQuestion,
               this`currentHypothesis, this`currentAnswer
      ensures Valid()
      ensures r.Err? <==> ParseUserAnswer(elementValue).Err?
      ensures r.Err? ==> r.error == UnrecognizedUserAnswer && unchanged(this)
      ensures r.Ok? ==> (r.value <==> old(currentAnswer) == Some(ParseUserAnswer(elementValue).value))
      ensures r.Ok? && r.value ==> currentScore == old(currentScore) + 5 && currentLevel == old(currentLevel) + 1
      ensures r.Ok? && !r.value ==> currentScore == old(currentScore) && currentLevel == old(currentLevel)
      ensures r.Ok? ==> RoundFrom(dr)
      ensures currentScore >= old(currentScore) && currentLevel >= old(currentLevel)
    {
      var userAnswer := ParseUserAnswer(elementValue);
      if userAnswer.Err? {
        return Err(userAnswer.error);
      }
      var matched := currentAnswer == Some(userAnswer.value);
      if matched {
        currentScore := currentScore + 5;
        currentLevel := currentLevel + 1;
      }
      GenerateQuestion(dr);
      r := Ok(matched);
    }
  }

  /** A session left alone: the interval callback runs until it clears its
      own interval. It runs 21 times; the first 20 only count up. */
  method UninterruptedSession(dr: Draws, handle: nat) returns (ticks: nat, finalTimer: int, score: int)
    requires ValidDraws(dr)
    ensures ticks == SESSION_DURATION_SECOND + 1
    ensures finalTimer == 0 && score == 0
  {
    var game := new GameSession();
    game.Run(dr, handle);
    ticks := 0;
    var over := false;
    while !over
      invariant game.Valid() && game.currentScore == 0
      invariant game.currentSession == Some(handle)
      invariant !over ==> ticks <= SESSION_DURATION_SECOND && game.currentTimerSecond == ticks
      invariant over ==> ticks == SESSION_DURATION_SECOND + 1 && game.currentTimerSecond == 0
      invariant over <==> handle !in game.liveIntervals
      decreases SESSION_DURATION_SECOND + 1 - ticks, if over then 0 else 1
    {
      over := game.Tick();
      ticks := ticks + 1;
    }
    finalTimer := game.currentTimerSecond;
    score := game.currentScore;
  }

  /** Answering after the game-over tick still scores: the listener has no
      game-over guard. */
  method AnswerAfterGameOver(dr: Draws, next: Draws, handle: nat) returns (shown: bool, score: int, level: int)
    requires ValidDraws(dr) && ValidDraws(next)
    ensures shown
    ensures score == 5 && level == 2
  {
    var game := new GameSession();
    game.Run(dr, handle);
    var i := 0;
    shown := false;
    while i < SESSION_DURATION_SECOND + 1
      invariant 0 <= i <= SESSION_DURATION_SECOND + 1
      invariant game.Valid() && game.currentScore == 0 && game.currentLevel == 1
      invariant game.currentAnswer.Some?
      invariant i <= SESSION_DURATION_SECOND ==> game.currentTimerSecond == i && !shown
      invariant i == SESSION_DURATION_SECOND + 1 ==> shown
    {
      shown := game.Tick();
      i := i + 1;
    }
    var value := if game.currentAnswer.value then "true" else "false";
    var r := game.AnswerClick(value, next);
    score, level := game.currentScore, game.currentLevel;
  }
}
