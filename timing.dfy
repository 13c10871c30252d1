/** Time arithmetic of the animation clock. Times are whole milliseconds. */
module Timing {

  /** The quotient `a / b` truncated toward zero, as `static_cast<int>` truncates
      the quotient of an elapsed duration by a frame length. Dafny's own `/` rounds
      toward minus infinity for a negative dividend, so the two are told apart here. */
  function TruncDiv(a: int, b: int): (q: int)
    requires b > 0
    ensures a >= 0 ==> 0 <= q && q * b <= a < q * b + b
    ensures a < 0 ==> q <= 0 && q * b - b < a <= q * b
  {
    if a >= 0 then
      DivBounds(a, b);
      a / b
    else
      DivBounds(-a, b);
      -((-a) / b)
  }

  /** The quotient of a non-negative dividend brackets it between two
      consecutive multiples of the divisor. */
  lemma DivBounds(a: nat, b: int)
    requires b > 0
    ensures 0 <= a / b && (a / b) * b <= a < (a / b) * b + b
  {
    assert a == (a / b) * b + a % b;
  }

  /** Multiplying by a non-negative factor keeps order. */
  lemma MulMonotone(x: int, y: int, b: int)
    requires b >= 0 && x <= y
    ensures x * b <= y * b
  {
  }

  /** Any whole number of frames that fits into a non-negative elapsed time is at
      most the truncated frame index. */
  lemma TruncDivIsGreatest(k: int, a: int, b: int)
    requires b > 0 && a >= 0 && k * b <= a
    ensures k <= TruncDiv(a, b)
  {
    var q := TruncDiv(a, b);
    if k > q {
      assert (q + 1) * b == q * b + b;
      MulMonotone(q + 1, k, b);
    }
  }

  /** Clock readings that never go backwards. */
  ghost predicate NonDecreasing(s: seq<int>)
  {
    forall i, j :: 0 <= i < j < |s| ==> s[i] <= s[j]
  }

  /** The readings after the first are still in order. */
  lemma NonDecreasingTail(s: seq<int>)
    requires s != [] && NonDecreasing(s)
    ensures NonDecreasing(s[1..])
  {
    forall i, j | 0 <= i < j < |s[1..]| ensures s[1..][i] <= s[1..][j] {
      assert s[1..][i] == s[i + 1] && s[1..][j] == s[j + 1];
    }
  }
}
