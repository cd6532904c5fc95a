/** The arithmetic behind a question: the operator set and the evaluation of
    `a op b`, which the game performs with `eval` on the string "a" + op + "b". */
module Arithmetic {

  datatype Operator = Add | Sub | Mul

  /** The default candidate list `["+", "-", "*"]`. */
  const DEFAULT_OPERATORS: seq<Operator> := [Add, Sub, Mul]

  /** Largest integer a JavaScript number holds exactly (2^53 - 1). */
  const MAX_SAFE_INTEGER: int := 9007199254740991

  predicate IsThreeDigit(x: int) {
    100 <= x <= 999
  }

  /** The value of `a op b`; each operator is undone by its inverse. */
  function Calculate(op: Operator, a: int, b: int): (r: int)
    ensures op == Add ==> r - b == a
    ensures op == Sub ==> r + b == a
    ensures op == Mul && b != 0 ==> r / b == a && r % b == 0
  {
    match op
    case Add => a + b
    case Sub => a - b
    case Mul => MulDivides(a, b); a * b
  }

  lemma MulDivides(a: int, b: int)
    ensures b != 0 ==> (a * b) / b == a && (a * b) % b == 0
  {
    if b != 0 {
      var q, m := (a * b) / b, (a * b) % b;
      assert a * b == q * b + m && 0 <= m < if b < 0 then -b else b;
      assert (a - q) * b == m;
      if a - q != 0 {
        AbsProductAtLeast(a - q, b);
        assert false;
      }
    }
  }

  /** A nonzero multiple of b is at least |b| in absolute value. */
  lemma AbsProductAtLeast(k: int, b: int)
    requires k != 0 && b != 0
    ensures (k * b >= 0 && k * b >= (if b < 0 then -b else b)) ||
            (k * b < 0 && -(k * b) >= (if b < 0 then -b else b))
  {
    var ak := if k < 0 then -k else k;
    var ab := if b < 0 then -b else b;
    assert ak * ab == (if k * b < 0 then -(k * b) else k * b);
    assert ak * ab >= 1 * ab;
  }

  lemma MulMonotone(a: int, b: int, c: int, d: int)
    requires 0 <= a <= c && 0 <= b <= d
    ensures a * b <= c * d
  {
    assert a * b <= c * b;
    assert c * b <= c * d;
  }

  /** With two 3-digit operands every result is small enough for a JavaScript
      number to hold exactly, so evaluating over unbounded integers is exact. */
  lemma ThreeDigitResultBounds(op: Operator, a: int, b: int)
    requires IsThreeDigit(a) && IsThreeDigit(b)
    ensures op == Add ==> 200 <= Calculate(op, a, b) <= 1998
    ensures op == Sub ==> -899 <= Calculate(op, a, b) <= 899
    ensures op == Mul ==> 10000 <= Calculate(op, a, b) <= 998001
    ensures -MAX_SAFE_INTEGER <= Calculate(op, a, b) <= MAX_SAFE_INTEGER
  {
    if op == Mul {
      MulMonotone(100, 100, a, b);
      MulMonotone(a, b, 999, 999);
    }
  }
}
