// The daily-PnL correlation of two series, in squared form, with Cauchy-Schwarz.

module Correlation {
  import opened Util
  import opened Numbers

  /** The shortest pair of series that is compared at all. */
  const MIN_SERIES := 30

  function Mean(s: seq<real>): real
    requires s != []
  {
    Sum(s) / |s| as real
  }

  function Deltas(s: seq<real>): (d: seq<real>)
    requires s != []
    ensures |d| == |s|
  {
    seq(|s|, i requires 0 <= i < |s| => s[i] - Mean(s))
  }

  function Dot(a: seq<real>, b: seq<real>): real
    requires |a| == |b|
  {
    if a == [] then 0.0 else Dot(a[..|a| - 1], b[..|b| - 1]) + a[|a| - 1] * b[|b| - 1]
  }

  /** Squared norm of the deviations from the mean. */
  function Spread(s: seq<real>): real
    requires s != []
  {
    Dot(Deltas(s), Deltas(s))
  }

  function Covariance(a: seq<real>, b: seq<real>): real
    requires a != [] && |a| == |b|
  {
    Dot(Deltas(a), Deltas(b))
  }

  /**
   * The square of the correlation, or None where the program returns None. A
   * norm is the square root of a spread, so it is zero exactly when the spread is.
   */
  function PearsonSquared(left: seq<real>, right: seq<real>): Option<real> {
    if |left| != |right| || |left| < MIN_SERIES then None
    else if Spread(left) == 0.0 || Spread(right) == 0.0 then None
    else Some(Square(Covariance(left, right)) / (Spread(left) * Spread(right)))
  }

  lemma {:induction false} DotSymmetric(a: seq<real>, b: seq<real>)
    requires |a| == |b|
    ensures Dot(a, b) == Dot(b, a)
  {
    if a != [] {
      DotSymmetric(a[..|a| - 1], b[..|b| - 1]);
    }
  }

  lemma {:induction false} DotSelfNonNegative(a: seq<real>)
    ensures Dot(a, a) >= 0.0
  {
    if a != [] {
      DotSelfNonNegative(a[..|a| - 1]);
    }
  }

  function Combine(p: real, a: seq<real>, q: real, b: seq<real>): (c: seq<real>)
    requires |a| == |b|
    ensures |c| == |a|
  {
    seq(|a|, i requires 0 <= i < |a| => Mix(p, a[i], q, b[i]))
  }

  function Mix(p: real, x: real, q: real, y: real): real {
    p * x - q * y
  }

  /** The squared norm of p*a - q*b, from the three dot products. */
  function Form(p: real, q: real, aa: real, ab: real, bb: real): real {
    p * p * aa - 2.0 * (p * q) * ab + q * q * bb
  }

  lemma {:induction false} DotOfCombination(p: real, a: seq<real>, q: real, b: seq<real>)
    requires |a| == |b|
    ensures Dot(Combine(p, a, q, b), Combine(p, a, q, b)) == Form(p, q, Dot(a, a), Dot(a, b), Dot(b, b))
  {
    hide Mix, Form, Square;
    if a == [] {
      FormOfZero(p, q);
    } else {
      var n := |a| - 1;
      var front := Combine(p, a[..n], q, b[..n]);
      var aa, ab, bb := Dot(a[..n], a[..n]), Dot(a[..n], b[..n]), Dot(b[..n], b[..n]);
      var xx, xy, yy := a[n] * a[n], a[n] * b[n], b[n] * b[n];
      calc {
        Dot(Combine(p, a, q, b), Combine(p, a, q, b));
      == { CombineLast(p, a, q, b); }
        Dot(front, front) + Square(Mix(p, a[n], q, b[n]));
      == { DotOfCombination(p, a[..n], q, b[..n]); }
        Form(p, q, aa, ab, bb) + Square(Mix(p, a[n], q, b[n]));
      == { ExpandSquare(p, a[n], q, b[n], xx, xy, yy); }
        Form(p, q, aa, ab, bb) + Form(p, q, xx, xy, yy);
      == { Distribute(p, q, aa, ab, bb, xx, xy, yy); }
        Form(p, q, aa + xx, ab + xy, bb + yy);
      == { assert Dot(a, a) == aa + xx && Dot(a, b) == ab + xy && Dot(b, b) == bb + yy; }
        Form(p, q, Dot(a, a), Dot(a, b), Dot(b, b));
      }
    }
  }

  lemma FormOfZero(p: real, q: real)
    ensures Form(p, q, 0.0, 0.0, 0.0) == 0.0
  {
  }

  lemma CombineLast(p: real, a: seq<real>, q: real, b: seq<real>)
    requires |a| == |b| && a != []
    ensures var n, c := |a| - 1, Combine(p, a, q, b);
      var front, last := Combine(p, a[..n], q, b[..n]), Mix(p, a[n], q, b[n]);
      Dot(c, c) == Dot(front, front) + Square(last)
  {
    var n, c := |a| - 1, Combine(p, a, q, b);
    assert c[..n] == Combine(p, a[..n], q, b[..n]);
  }

  lemma ExpandSquare(p: real, x: real, q: real, y: real, xx: real, xy: real, yy: real)
    requires xx == x * x && xy == x * y && yy == y * y
    ensures Square(Mix(p, x, q, y)) == Form(p, q, xx, xy, yy)
  {
  }

  lemma Distribute(p: real, q: real, aa: real, ab: real, bb: real, xx: real, xy: real, yy: real)
    ensures Form(p, q, aa + xx, ab + xy, bb + yy) == Form(p, q, aa, ab, bb) + Form(p, q, xx, xy, yy)
  {
  }

  /** Cauchy-Schwarz: the square of a dot product is at most the product of the squares. */
  lemma CauchySchwarz(a: seq<real>, b: seq<real>)
    requires |a| == |b|
    ensures Dot(a, b) * Dot(a, b) <= Dot(a, a) * Dot(b, b)
  {
    var aa, ab, bb := Dot(a, a), Dot(a, b), Dot(b, b);
    DotSelfNonNegative(a);
    DotSelfNonNegative(b);
    DotOfCombination(ab, a, aa, b);
    DotSelfNonNegative(Combine(ab, a, aa, b));
    DotOfCombination(bb, a, ab, b);
    DotSelfNonNegative(Combine(bb, a, ab, b));
    FromDiscriminants(aa, ab, bb);
    if aa == 0.0 && bb == 0.0 {
      DotOfCombination(1.0, a, 1.0, b);
      DotSelfNonNegative(Combine(1.0, a, 1.0, b));
      DotOfCombination(1.0, a, -1.0, b);
      DotSelfNonNegative(Combine(1.0, a, -1.0, b));
      assert ab == 0.0;
    }
  }

  lemma FromDiscriminants(aa: real, ab: real, bb: real)
    requires aa >= 0.0 && bb >= 0.0
    requires Form(ab, aa, aa, ab, bb) >= 0.0 && Form(bb, ab, aa, ab, bb) >= 0.0
    ensures aa > 0.0 || bb > 0.0 ==> ab * ab <= aa * bb
  {
    var gap := aa * bb - ab * ab;
    assert aa * gap >= 0.0 && bb * gap >= 0.0;
    if aa > 0.0 {
      PositiveFactor(aa, gap);
    } else if bb > 0.0 {
      PositiveFactor(bb, gap);
    }
  }

  lemma PositiveFactor(x: real, y: real)
    requires x > 0.0 && x * y >= 0.0
    ensures y >= 0.0
  {
  }

  /** The correlation is symmetric and never exceeds one in absolute value. */
  lemma PearsonSymmetricAndBounded(left: seq<real>, right: seq<real>)
    ensures PearsonSquared(left, right) == PearsonSquared(right, left)
    ensures var r := PearsonSquared(left, right); r.Some? ==> 0.0 <= r.value <= 1.0
  {
    if |left| == |right| && |left| >= MIN_SERIES {
      DotSymmetric(Deltas(left), Deltas(right));
      CauchySchwarz(Deltas(left), Deltas(right));
      DotSelfNonNegative(Deltas(left));
      DotSelfNonNegative(Deltas(right));
      if PearsonSquared(left, right).Some? {
        var d := Spread(left) * Spread(right);
        assert d > 0.0;
        FractionMonotone(Square(Covariance(left, right)), d, d, d);
        FractionMonotone(0.0, d, Square(Covariance(left, right)), d);
      }
    }
  }

  lemma {:induction false} SumOfShifted(s: seq<real>, c: real)
    ensures Sum(Shifted(s, c)) == Sum(s) + |s| as real * c
  {
    if s != [] {
      var n := |s| - 1;
      SumOfShifted(s[..n], c);
      assert Shifted(s, c)[..n] == Shifted(s[..n], c);
      assert |s| as real * c == n as real * c + c;
    }
  }

  /** The series with a constant added to every value. */
  function Shifted(s: seq<real>, c: real): (r: seq<real>)
    ensures |r| == |s|
  {
    seq(|s|, i requires 0 <= i < |s| => s[i] + c)
  }

  /** Deviations from the mean add up to nothing. */
  lemma DeviationsAreCentred(s: seq<real>)
    requires s != []
    ensures Sum(Deltas(s)) == 0.0
  {
    var n, mean := |s| as real, Mean(s);
    SumOfShifted(s, -mean);
    assert Deltas(s) == Shifted(s, -mean);
    assert mean * n == Sum(s);
    assert n * -mean == -(mean * n);
  }

  /** The sum of the products, day by day. */
  lemma {:induction false} DotIsSum(a: seq<real>, b: seq<real>)
    requires |a| == |b|
    ensures Dot(a, b) == Sum(seq(|a|, i requires 0 <= i < |a| => a[i] * b[i]))
  {
    if a != [] {
      var n := |a| - 1;
      DotIsSum(a[..n], b[..n]);
      var all := seq(|a|, i requires 0 <= i < |a| => a[i] * b[i]);
      var front := seq(n, i requires 0 <= i < n => a[..n][i] * b[..n][i]);
      forall i | 0 <= i < n
        ensures all[..n][i] == front[i]
      {
        assert a[..n][i] == a[i] && b[..n][i] == b[i];
      }
      assert all[..n] == front;
    }
  }

  /** All values of the series are the same. */
  ghost predicate Constant(s: seq<real>) {
    forall i :: 0 <= i < |s| ==> s[i] == s[0]
  }

  lemma {:induction false} DotZeroExactly(d: seq<real>)
    ensures Dot(d, d) == 0.0 <==> forall i :: 0 <= i < |d| ==> d[i] == 0.0
  {
    if d != [] {
      var n := |d| - 1;
      DotZeroExactly(d[..n]);
      DotSelfNonNegative(d[..n]);
      SquareZeroExactly(d[n]);
      assert forall i :: 0 <= i < n ==> d[..n][i] == d[i];
    }
  }

  lemma SquareZeroExactly(x: real)
    ensures x * x >= 0.0 && (x * x == 0.0 <==> x == 0.0)
  {
    if x == 0.0 {
      assert x * x == 0.0 * x;
    } else if x > 0.0 {
      SignOfProduct(x, x);
      SignOfProduct(x, -x);
    } else {
      SignOfProduct(-x, -x);
      SignOfProduct(-x, x);
      assert -x * -x == x * x;
    }
  }

  lemma {:induction false} SumOfConstant(s: seq<real>, c: real)
    requires forall i :: 0 <= i < |s| ==> s[i] == c
    ensures Sum(s) == |s| as real * c
  {
    if s != [] {
      SumOfConstant(s[..|s| - 1], c);
      var n := (|s| - 1) as real;
      assert (n + 1.0) * c == n * c + c;
    }
  }

  /** The spread is nothing exactly when the series never moves. */
  lemma SpreadZeroExactly(s: seq<real>)
    requires s != []
    ensures Spread(s) == 0.0 <==> Constant(s)
  {
    DotZeroExactly(Deltas(s));
    assert forall i :: 0 <= i < |s| ==> Deltas(s)[i] == s[i] - Mean(s);
    if Constant(s) {
      SumOfConstant(s, s[0]);
      QuotientUnique(Sum(s), |s| as real, s[0]);
    }
    if Spread(s) == 0.0 {
      forall i | 0 <= i < |s|
        ensures s[i] == s[0]
      {
        assert Deltas(s)[i] == 0.0 && Deltas(s)[0] == 0.0;
      }
    }
  }

  /** A correlation is defined exactly for equally long series of thirty days that both move. */
  lemma PearsonDefinedExactly(left: seq<real>, right: seq<real>)
    ensures PearsonSquared(left, right).Some? <==>
      |left| == |right| && |left| >= 30 && !Constant(left) && !Constant(right)
  {
    hide Spread, Constant;
    if left != [] && right != [] {
      SpreadZeroExactly(left);
      SpreadZeroExactly(right);
    }
  }

  /** A copy of a moving series, at any level, is perfectly correlated with it. */
  lemma PearsonOfCopy(s: seq<real>, c: real)
    requires |s| >= 30 && !Constant(s)
    ensures PearsonSquared(Shifted(s, c), s) == Some(1.0)
  {
    hide Constant;
    PearsonDefinedExactly(s, s);
    PearsonIgnoresLevel(s, s, c);
    assert Covariance(s, s) == Spread(s) && Spread(s) != 0.0;
    SquareZeroExactly(Spread(s));
    QuotientUnique(Square(Spread(s)), Spread(s) * Spread(s), 1.0);
  }

  /** Adding a constant to every day of one unit does not change its correlation. */
  lemma PearsonIgnoresLevel(left: seq<real>, right: seq<real>, c: real)
    ensures PearsonSquared(Shifted(left, c), right) == PearsonSquared(left, right)
  {
    hide Deltas, Dot, Mean;
    if |left| == |right| && |left| >= MIN_SERIES {
      ShiftKeepsDeltas(left, c);
      assert Spread(Shifted(left, c)) == Spread(left);
      assert Covariance(Shifted(left, c), right) == Covariance(left, right);
      assert PearsonSquared(left, right).Some? ==>
        PearsonSquared(Shifted(left, c), right).value == PearsonSquared(left, right).value;
    }
  }

  lemma ShiftKeepsDeltas(s: seq<real>, c: real)
    requires s != []
    ensures Deltas(Shifted(s, c)) == Deltas(s)
  {
    MeanOfShifted(s, c);
  }

  lemma MeanOfShifted(s: seq<real>, c: real)
    requires s != []
    ensures Mean(Shifted(s, c)) == Mean(s) + c
  {
    SumOfShifted(s, c);
    QuotientUnique(Sum(s) + |s| as real * c, |s| as real, Mean(s) + c);
  }

  /**
   * For whatever norms the square roots yield, the program's quotient squares to
   * PearsonSquared, lies within [-1, 1], and meets a limit exactly when the square
   * meets the squared limit.
   */
  lemma PearsonFormula(left: seq<real>, right: seq<real>, leftNorm: real, rightNorm: real, limit: real)
    requires PearsonSquared(left, right).Some?
    requires leftNorm >= 0.0 && leftNorm * leftNorm == Spread(left)
    requires rightNorm >= 0.0 && rightNorm * rightNorm == Spread(right)
    requires limit >= 0.0
    ensures leftNorm * rightNorm > 0.0
    ensures var c := Covariance(left, right) / (leftNorm * rightNorm);
      && c * c == PearsonSquared(left, right).value
      && -1.0 <= c <= 1.0
      && (-limit <= c <= limit <==> PearsonSquared(left, right).value <= limit * limit)
  {
    var n, cov := leftNorm * rightNorm, Covariance(left, right);
    assert leftNorm > 0.0 && rightNorm > 0.0;
    assert n > 0.0;
    var c := cov / n;
    assert n * n == Spread(left) * Spread(right) by {
      assert n * n == (leftNorm * leftNorm) * (rightNorm * rightNorm);
    }
    SquareOfQuotient(cov, n, c, Spread(left) * Spread(right));
    PearsonSymmetricAndBounded(left, right);
    SquareOrder(c, 1.0);
    SquareOrder(c, limit);
  }

  /** A square root of the spread, as `sqrt` yields it. */
  ghost predicate IsNorm(norm: real, s: seq<real>) {
    s != [] && norm >= 0.0 && norm * norm == Spread(s)
  }

  /** The quotient the program computes is defined and its absolute value within the limit. */
  ghost predicate QuotientWithin(left: seq<real>, right: seq<real>, leftNorm: real, rightNorm: real, limit: real) {
    && left != [] && |left| == |right| && leftNorm * rightNorm > 0.0
    && -limit <= Covariance(left, right) / (leftNorm * rightNorm) <= limit
  }

  /** A squared correlation within the squared limit bounds the quotient for all norms. */
  lemma QuotientLimited(left: seq<real>, right: seq<real>, limit: real)
    requires limit >= 0.0
    requires PearsonSquared(left, right).Some? && PearsonSquared(left, right).value <= Square(limit)
    ensures forall l, r :: IsNorm(l, left) && IsNorm(r, right) ==> QuotientWithin(left, right, l, r, limit)
  {
    forall l, r | IsNorm(l, left) && IsNorm(r, right)
      ensures QuotientWithin(left, right, l, r, limit)
    {
      PearsonFormula(left, right, l, r, limit);
    }
  }

  lemma SquareOfQuotient(x: real, n: real, c: real, d: real)
    requires c * n == x && n * n == d && d != 0.0
    ensures Square(x) / d == c * c
  {
    SquareOfProduct(c, n);
    QuotientUnique(Square(x), d, c * c);
  }

  lemma SquareOfProduct(c: real, n: real)
    ensures Square(c * n) == (c * c) * (n * n)
  {
  }

  lemma QuotientUnique(x: real, d: real, q: real)
    requires d != 0.0
    requires x == q * d
    ensures x / d == q
  {
  }

  lemma SquareOrder(c: real, limit: real)
    requires limit >= 0.0
    ensures -limit <= c <= limit <==> c * c <= limit * limit
  {
    var product := (limit - c) * (limit + c);
    assert product == limit * limit - c * c;
    if limit - c > 0.0 {
      SignOfProduct(limit - c, limit + c);
    } else if limit + c > 0.0 {
      SignOfProduct(limit + c, limit - c);
    }
  }

  lemma SignOfProduct(x: real, y: real)
    requires x > 0.0
    ensures x * y >= 0.0 <==> y >= 0.0
  {
  }
}
