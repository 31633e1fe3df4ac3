/** Python's `round(x, n)` on exact reals (ties go to the even digit), and clamping to [0, 1]. */
module Rounding {

  function RoundHalfEven(x: real): int {
    var low := x.Floor;
    var rest := x - low as real;
    if rest < 0.5 || (rest == 0.5 && low % 2 == 0) then low else low + 1
  }

  function Round2(x: real): real {
    RoundHalfEven(x * 100.0) as real / 100.0
  }

  function Round3(x: real): real {
    RoundHalfEven(x * 1000.0) as real / 1000.0
  }

  function Clamp(x: real): real {
    if x < 0.0 then 0.0 else if x > 1.0 then 1.0 else x
  }

  lemma RoundHalfEvenIsMonotone(x: real, y: real)
    requires x <= y
    ensures RoundHalfEven(x) <= RoundHalfEven(y)
  {
    if x.Floor < y.Floor {
      assert RoundHalfEven(x) <= x.Floor + 1;
    }
  }

  lemma RoundHalfEvenOfInt(x: real, k: int)
    requires x == k as real
    ensures RoundHalfEven(x) == k
  {
  }

  lemma Round3IsMonotone(x: real, y: real)
    requires x <= y
    ensures Round3(x) <= Round3(y)
  {
    RoundHalfEvenIsMonotone(x * 1000.0, y * 1000.0);
  }

  lemma Round3KeepsUnitInterval(x: real)
    requires 0.0 <= x <= 1.0
    ensures 0.0 <= Round3(x) <= 1.0
  {
    RoundHalfEvenOfInt(0.0, 0);
    RoundHalfEvenOfInt(1000.0, 1000);
    RoundHalfEvenIsMonotone(0.0, x * 1000.0);
    RoundHalfEvenIsMonotone(x * 1000.0, 1000.0);
  }

  /** The result is the nearest whole number, and of two equally near ones the even one; nothing else is. */
  lemma RoundHalfEvenIsNearest(x: real, k: int)
    ensures k == RoundHalfEven(x) <==>
            x - 0.5 <= k as real <= x + 0.5 && (k as real == x - 0.5 || k as real == x + 0.5 ==> k % 2 == 0)
  {
    var low := x.Floor;
    if x - 0.5 <= k as real <= x + 0.5 {
      assert k == low || k == low + 1;
    }
  }

  /** Clamping moves a number to the nearest one of the unit interval. */
  lemma ClampIsNearest(x: real, y: real)
    ensures 0.0 <= Clamp(x) <= 1.0
    ensures 0.0 <= y <= 1.0 && y <= x ==> y <= Clamp(x) <= x
    ensures 0.0 <= y <= 1.0 && x <= y ==> x <= Clamp(x) <= y
  {
  }
}
