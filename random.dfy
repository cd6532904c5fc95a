/** The game's random helpers with `Math.random()` replaced by the integer the
    caller already drew: `Math.floor(Math.random() * n)` becomes a draw in
    `[0, n)` (or exactly 0 when n is 0). */
module Random {
  import opened Outcomes
  import opened Arithmetic

  /** 10 raised to n. */
  function Pow10(n: nat): (r: nat)
    ensures r >= 1
  {
    if n == 0 then 1 else 10 * Pow10(n - 1)
  }

  /** `#randomNumberByLength(length)` with the guard the error message states
      (`length` must be larger than 0): a number with exactly `length` decimal
      digits, `10^(length-1) + k` for the draw `k` in `[0, 9 * 10^(length-1))`. */
  function RandomNumberByLength(length: int, k: int): (r: Result<int>)
    requires length > 0 ==> 0 <= k < 9 * Pow10(length - 1)
    ensures r.Err? <==> length <= 0
    ensures r.Err? ==> r.error == LengthMustBePositive
    ensures r.Ok? ==> Pow10(length - 1) <= r.value <= Pow10(length) - 1
  {
    if length <= 0 then Err(LengthMustBePositive)
    else Ok(Pow10(length - 1) + k)
  }

  /** `#randomNumberByLength(length)` as written: only `length === 0` throws;
      for a negative length `Math.floor` of a value in (0, 0.1) gives 0. */
  function RandomNumberByLengthAsWritten(length: int, k: int): (r: Result<int>)
    requires length > 0 ==> 0 <= k < 9 * Pow10(length - 1)
    ensures r.Err? <==> length == 0
    ensures length > 0 ==> r == RandomNumberByLength(length, k)
  {
    if length == 0 then Err(LengthMustBePositive)
    else if length < 0 then Ok(0)
    else Ok(Pow10(length - 1) + k)
  }

  /** A negative length gets past the guard and yields 0, which has no
      "length" digits; the corrected function refuses it. */
  lemma NegativeLengthPassesGuard()
    ensures RandomNumberByLengthAsWritten(-1, 0) == Ok(0)
    ensures RandomNumberByLength(-1, 0) == Err(LengthMustBePositive)
  {
  }

  /** Every length-digit number is produced by exactly one draw. */
  lemma ByLengthDrawsCoverRange(length: int, v: int)
    requires length > 0 && Pow10(length - 1) <= v <= Pow10(length) - 1
    ensures 0 <= v - Pow10(length - 1) < 9 * Pow10(length - 1)
    ensures RandomNumberByLength(length, v - Pow10(length - 1)) == Ok(v)
  {
    assert Pow10(length) == 10 * Pow10(length - 1);
  }

  /** `#randomOperator(operators)`: the entry at the drawn index, or
      `undefined` when the list is empty (the draw is then 0). */
  function RandomOperator(operators: seq<Operator>, i: int): (r: Option<Operator>)
    requires if |operators| == 0 then i == 0 else 0 <= i < |operators|
    ensures r.Some? <==> |operators| > 0
    ensures r.Some? ==> r.value in operators
  {
    if i < |operators| then Some(operators[i]) else None
  }

  /** Each of the default operators can be drawn. */
  lemma EveryDefaultOperatorDrawable(op: Operator)
    ensures exists i :: 0 <= i < |DEFAULT_OPERATORS| && RandomOperator(DEFAULT_OPERATORS, i) == Some(op)
  {
    var i := match op case Add => 0 case Sub => 1 case Mul => 2;
    assert RandomOperator(DEFAULT_OPERATORS, i) == Some(op);
  }

  /** `#randomNumberBetween(minNum, maxNum)`: `d + minNum` for the draw
      `d = Math.floor(Math.random() * (maxNum - minNum))`, which lies in
      `[0, maxNum - minNum)` for an increasing range, is 0 for an empty one and
      lies in `[maxNum - minNum, 0]` for a reversed one. */
  function RandomNumberBetween(minNum: int, maxNum: int, d: int): (r: int)
    requires minNum < maxNum ==> 0 <= d < maxNum - minNum
    requires minNum == maxNum ==> d == 0
    requires maxNum < minNum ==> maxNum - minNum <= d <= 0
    ensures minNum < maxNum ==> minNum <= r < maxNum
    ensures minNum == maxNum ==> r == minNum
    ensures maxNum < minNum ==> maxNum <= r <= minNum
  {
    d + minNum
  }
}
