/** Python's round(): to nearest, ties to the even neighbour, over exact reals. */
module Rounding {

  function Round(x: real): int {
    var f := x.Floor;
    var rest := x - f as real;
    if rest < 0.5 then f
    else if rest > 0.5 then f + 1
    else if f % 2 == 0 then f else f + 1
  }

  /** round(x, 2). */
  function Round2(x: real): real { Round(x * 100.0) as real / 100.0 }

  lemma RoundIsNearest(x: real)
    ensures -0.5 <= Round(x) as real - x <= 0.5
  {
  }

  lemma RoundMonotone(x: real, y: real)
    requires x <= y
    ensures Round(x) <= Round(y)
  {
    assert x.Floor <= y.Floor;
    if x.Floor < y.Floor {
      assert Round(x) <= x.Floor + 1 <= y.Floor <= Round(y);
    }
  }

  lemma RoundInteger(k: int)
    ensures Round(k as real) == k
  {
    assert (k as real).Floor == k;
  }

  lemma Round2Facts(x: real, y: real)
    ensures x <= y ==> Round2(x) <= Round2(y)
    ensures -0.005 <= Round2(x) - x <= 0.005
  {
    RoundIsNearest(x * 100.0);
    if x <= y {
      RoundMonotone(x * 100.0, y * 100.0);
    }
  }
}
