// Sums, extrema and decimal rounding over exact reals.

module Numbers {

  /** Sum of a list, accumulated from the left as the loops of the program do. */
  function Sum(s: seq<real>): real {
    if s == [] then 0.0 else Sum(s[..|s| - 1]) + s[|s| - 1]
  }

  function Max(a: real, b: real): real {
    if a < b then b else a
  }

  function Min(a: real, b: real): real {
    if b < a then b else a
  }

  function Square(x: real): real {
    x * x
  }

  /** `max(list)`: an element, and none is larger. */
  function MaxOf(s: seq<real>): (m: real)
    requires s != []
    ensures m in s && forall x :: x in s ==> x <= m
  {
    if |s| == 1 then
      s[0]
    else
      assert s == s[..|s| - 1] + [s[|s| - 1]];
      Max(MaxOf(s[..|s| - 1]), s[|s| - 1])
  }

  /** Nearest integer, a tie going to the even neighbour. */
  function RoundHalfEven(y: real): int {
    var f := y.Floor;
    var rest := y - f as real;
    if rest < 0.5 then f
    else if rest > 0.5 then f + 1
    else if f % 2 == 0 then f
    else f + 1
  }

  const E6 := 1000000.0
  const E8 := 100000000.0

  /** `round(x, 6)` and `round(x, 8)` over exact reals. */
  function Round6(x: real): real {
    RoundHalfEven(x * E6) as real / E6
  }

  function Round8(x: real): real {
    RoundHalfEven(x * E8) as real / E8
  }

  /** The figure is the value rounded to eight places: at most half a unit of the last place off. */
  predicate Near8(figure: real, value: real) {
    -0.5 <= (figure - value) * 100000000.0 <= 0.5
  }

  lemma Round8Near(x: real)
    ensures Near8(Round8(x), x)
  {
    var n := RoundHalfEven(x * E8);
    assert -0.5 <= n as real - x * E8 <= 0.5;
    assert Round8(x) * E8 == n as real;
  }

  lemma RoundHalfEvenMonotone(x: real, y: real)
    requires x <= y
    ensures RoundHalfEven(x) <= RoundHalfEven(y)
  {
    assert x.Floor <= y.Floor;
  }

  lemma Round6Monotone(x: real, y: real)
    requires x <= y
    ensures Round6(x) <= Round6(y)
  {
    RoundHalfEvenMonotone(x * E6, y * E6);
  }

  lemma Round8Monotone(x: real, y: real)
    requires x <= y
    ensures Round8(x) <= Round8(y)
  {
    RoundHalfEvenMonotone(x * E8, y * E8);
  }

  /** A larger numerator over a smaller denominator is a larger fraction. */
  lemma FractionMonotone(a: real, b: real, c: real, d: real)
    requires 0.0 <= a <= c && 0.0 < d <= b
    ensures a / b <= c / d
  {
    var q := a / b;
    assert q * b == a;
    assert 0.0 <= q;
    assert q * d <= q * b;
    var r := c / d;
    assert r * d == c;
    if r < q {
      assert r * d < q * d;
    }
  }
}
