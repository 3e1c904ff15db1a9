/**
 The slope of the straight line that fits a window of values best, over the real numbers. Value number
 i is at x = i.
 */
module Slope {

  /** The number of values and the sums over them: of x, x², y and x·y. */
  datatype Sums = Sums(n: real, x: real, xx: real, y: real, xy: real)

  /** One more value, at x = s.n. */
  function Add(s: Sums, v: real): Sums {
    Sums(s.n + 1.0, s.x + s.n, s.xx + s.n * s.n, s.y + v, s.xy + s.n * v)
  }

  ghost function SumsOf(values: seq<real>): Sums {
    if values == [] then Sums(0.0, 0.0, 0.0, 0.0, 0.0)
    else Add(SumsOf(values[..|values| - 1]), values[|values| - 1])
  }

  ghost function Denominator(s: Sums): real { s.n * s.xx - s.x * s.x }

  ghost function Numerator(s: Sums): real { s.n * s.xy - s.x * s.y }

  /** The sums over x alone, in closed form. */
  ghost predicate Closed(s: Sums) {
    2.0 * s.x == s.n * (s.n - 1.0) && 6.0 * s.xx == s.n * (s.n - 1.0) * (2.0 * s.n - 1.0)
  }

  lemma AddKeepsClosed(s: Sums, v: real)
    requires Closed(s)
    ensures Closed(Add(s, v))
  {
    var m := s.n;
    assert 6.0 * (s.xx + m * m) == m * (m - 1.0) * (2.0 * m - 1.0) + 6.0 * (m * m);
    assert m * (m - 1.0) * (2.0 * m - 1.0) + 6.0 * (m * m) == (m + 1.0) * m * (2.0 * m + 1.0);
  }

  lemma {:induction false} SumsClosed(values: seq<real>)
    ensures SumsOf(values).n == |values| as real && Closed(SumsOf(values))
  {
    if values != [] {
      SumsClosed(values[..|values| - 1]);
      AddKeepsClosed(SumsOf(values[..|values| - 1]), values[|values| - 1]);
    }
  }

  lemma Product(a: real, b: real, p: real)
    requires a > 0.0 && b > 0.0 && p == a * b
    ensures p > 0.0
  {
  }

  lemma Cancel(n: real, p: real, q: real)
    requires n > 0.0 && n * p == n * q
    ensures p == q
  {
    assert n * (p - q) == 0.0;
  }

  lemma ClosedDenominator(s: Sums)
    requires Closed(s)
    ensures 12.0 * Denominator(s) == s.n * s.n * (s.n * s.n - 1.0)
  {
    var p := s.n * (s.n - 1.0);
    assert 12.0 * (s.n * s.xx) == 2.0 * s.n * (p * (2.0 * s.n - 1.0));
    assert 12.0 * (s.x * s.x) == 3.0 * (p * p);
  }

  lemma ClosedPositive(s: Sums)
    requires Closed(s) && s.n >= 2.0
    ensures Denominator(s) > 0.0
  {
    ClosedDenominator(s);
    assert s.n * s.n >= 4.0;
    Product(s.n * s.n, s.n * s.n - 1.0, 12.0 * Denominator(s));
  }

  /** The denominator is n²(n²-1)/12. */
  lemma DenominatorClosedForm(values: seq<real>)
    ensures var n := |values| as real; 12.0 * Denominator(SumsOf(values)) == n * n * (n * n - 1.0)
  {
    hide SumsOf;
    SumsClosed(values);
    ClosedDenominator(SumsOf(values));
  }

  /** So the guard for a zero denominator fires for at most one value only, and two give a positive one. */
  lemma GuardForFewValues(values: seq<real>)
    ensures Denominator(SumsOf(values)) == 0.0 <==> |values| <= 1
    ensures |values| >= 2 ==> Denominator(SumsOf(values)) > 0.0
  {
    hide SumsOf;
    SumsClosed(values);
    ClosedDenominator(SumsOf(values));
    if |values| >= 2 {
      ClosedPositive(SumsOf(values));
    }
  }

  /** The quotient of the sums, or zero where the quotient is not defined. */
  ghost predicate IsQuotient(s: Sums, slope: real) {
    if Denominator(s) == 0.0 then slope == 0.0 else slope * Denominator(s) == Numerator(s)
  }

  ghost function SlopeOf(s: Sums): real {
    if Denominator(s) == 0.0 then 0.0 else Numerator(s) / Denominator(s)
  }

  lemma SlopeIsQuotient(s: Sums)
    ensures IsQuotient(s, SlopeOf(s))
  {
  }

  method LinearSlope(values: seq<real>) returns (slope: real)
    ensures slope == SlopeOf(SumsOf(values))
  {
    hide SumsOf;
    var s := Accumulate(values);
    var denominator := s.n * s.xx - s.x * s.x;
    if denominator == 0.0 {
      return 0.0;
    }
    slope := (s.n * s.xy - s.x * s.y) / denominator;
  }

  /** The loop over the values. */
  method Accumulate(values: seq<real>) returns (s: Sums)
    ensures s == SumsOf(values)
  {
    var sumX, sumY, sumXY, sumXX := 0.0, 0.0, 0.0, 0.0;
    for index := 0 to |values|
      invariant SumsOf(values[..index]) == Sums(index as real, sumX, sumXX, sumY, sumXY)
    {
      var x, value := index as real, values[index];
      assert values[..index + 1][..index] == values[..index];
      sumX := sumX + x;
      sumY := sumY + value;
      sumXY := sumXY + x * value;
      sumXX := sumXX + x * x;
    }
    assert values[..|values|] == values;
    return Sums(|values| as real, sumX, sumXX, sumY, sumXY);
  }

  // ----- Least squares -----

  function Square(d: real): real { d * d }

  /** The sum of the squared distances of the values from the line a + b·x. */
  ghost function Residual(values: seq<real>, a: real, b: real): real {
    if values == [] then 0.0
    else
      var n := |values| - 1;
      Residual(values[..n], a, b) + Square(values[n] - (a + b * n as real))
  }

  ghost function SumYY(values: seq<real>): real {
    if values == [] then 0.0 else SumYY(values[..|values| - 1]) + Square(values[|values| - 1])
  }

  /** The residual without the sum of y², as a polynomial in the sums. */
  ghost function Quadratic(s: Sums, a: real, b: real): real {
    s.n * (a * a) + 2.0 * (a * b * s.x) + b * b * s.xx - 2.0 * (a * s.y) - 2.0 * (b * s.xy)
  }

  lemma QuadraticAdd(s: Sums, v: real, a: real, b: real)
    ensures Quadratic(Add(s, v), a, b) + Square(v) == Quadratic(s, a, b) + Square(v - (a + b * s.n))
  {
    var x := s.n;
    assert Square(v - (a + b * x)) ==
      v * v - 2.0 * (a * v) - 2.0 * (b * (x * v)) + a * a + 2.0 * (a * b * x) + b * b * (x * x);
    assert a * (s.y + v) == a * s.y + a * v && b * (s.xy + x * v) == b * s.xy + b * (x * v);
    assert a * b * (s.x + x) == a * b * s.x + a * b * x;
    assert b * b * (s.xx + x * x) == b * b * s.xx + b * b * (x * x);
    assert (s.n + 1.0) * (a * a) == s.n * (a * a) + a * a;
  }

  lemma {:induction false} ResidualExpanded(values: seq<real>, a: real, b: real)
    ensures Residual(values, a, b) == SumYY(values) + Quadratic(SumsOf(values), a, b)
  {
    hide Add;
    hide Square;
    hide Quadratic;
    if values == [] {
      NoResidual(SumsOf(values), a, b);
    } else {
      var n := |values| - 1;
      ResidualExpanded(values[..n], a, b);
      SumsClosed(values[..n]);
      QuadraticAdd(SumsOf(values[..n]), values[n], a, b);
    }
  }

  lemma NoResidual(s: Sums, a: real, b: real)
    requires s == Sums(0.0, 0.0, 0.0, 0.0, 0.0)
    ensures Quadratic(s, a, b) == 0.0
  {
  }

  /** The intercept that goes with a slope. */
  ghost function Intercept(s: Sums, slope: real): real
    requires s.n != 0.0
  {
    (s.y - slope * s.x) / s.n
  }

  lemma NormalEquations(s: Sums, slope: real)
    requires s.n > 0.0 && Denominator(s) > 0.0 && IsQuotient(s, slope)
    ensures var c := Intercept(s, slope); s.n * c + slope * s.x == s.y && c * s.x + slope * s.xx == s.xy
  {
    var c := Intercept(s, slope);
    assert s.n * c == s.y - slope * s.x;
    assert s.n * (c * s.x + slope * s.xx) == (s.y - slope * s.x) * s.x + slope * (s.n * s.xx);
    assert slope * Denominator(s) == slope * (s.n * s.xx) - slope * (s.x * s.x);
    Cancel(s.n, c * s.x + slope * s.xx, s.xy);
  }

  /** Around a solution of the normal equations the residual grows by a quadratic form. */
  lemma Difference(s: Sums, c: real, m: real, a: real, b: real)
    requires s.n * c + m * s.x == s.y && c * s.x + m * s.xx == s.xy
    ensures var u, w := a - c, b - m;
      Quadratic(s, a, b) - Quadratic(s, c, m) == s.n * (u * u) + 2.0 * (u * w * s.x) + w * w * s.xx
  {
  }

  lemma SquareSign(w: real)
    ensures w != 0.0 ==> Square(w) > 0.0
    ensures w == 0.0 ==> Square(w) == 0.0
  {
    if w > 0.0 {
      Product(w, w, Square(w));
    }
    if w < 0.0 {
      Product(-w, -w, Square(w));
    }
  }

  lemma SumOfSquares(n: real, q: real, r: real, w: real, d: real)
    requires n > 0.0 && d > 0.0 && n * q == Square(r) + Square(w) * d
    ensures q >= 0.0
    ensures w != 0.0 ==> q > 0.0
  {
    hide Square;
    SquareSign(r);
    SquareSign(w);
    if w != 0.0 {
      Product(Square(w), d, Square(w) * d);
    }
    if q < 0.0 {
      Product(n, -q, -(n * q));
    }
  }

  /** A quadratic form with positive discriminant is never negative, and zero only at the origin. */
  lemma Definite(n: real, x: real, xx: real, u: real, w: real)
    requires n > 0.0 && n * xx - x * x > 0.0
    ensures var q := n * (u * u) + 2.0 * (u * w * x) + w * w * xx;
      q >= 0.0 && (q == 0.0 ==> u == 0.0 && w == 0.0)
  {
    var q := n * (u * u) + 2.0 * (u * w * x) + w * w * xx;
    var r, d := n * u + w * x, n * xx - x * x;
    assert n * q == Square(r) + Square(w) * d;
    SumOfSquares(n, q, r, w, d);
    if w == 0.0 {
      SquareSign(u);
      assert q == n * Square(u);
      if u != 0.0 {
        Product(n, Square(u), q);
      }
    }
  }

  lemma QuotientMinimizes(s: Sums, slope: real, a: real, b: real)
    requires s.n > 0.0 && Denominator(s) > 0.0 && IsQuotient(s, slope)
    ensures var c := Intercept(s, slope);
      && Quadratic(s, c, slope) <= Quadratic(s, a, b)
      && (Quadratic(s, c, slope) == Quadratic(s, a, b) ==> a == c && b == slope)
  {
    var c := Intercept(s, slope);
    NormalEquations(s, slope);
    Difference(s, c, slope, a, b);
    Definite(s.n, s.x, s.xx, a - c, b - slope);
  }

  /** With the matching intercept, the slope gives the line of least squares, and the only one. */
  lemma SlopeIsLeastSquares(values: seq<real>, a: real, b: real)
    requires |values| >= 2
    ensures SumsOf(values).n > 0.0
    ensures var slope := SlopeOf(SumsOf(values)); var c := Intercept(SumsOf(values), slope);
      && Residual(values, c, slope) <= Residual(values, a, b)
      && (Residual(values, c, slope) == Residual(values, a, b) ==> a == c && b == slope)
  {
    hide SumsOf;
    hide Residual;
    hide SlopeOf;
    hide Quadratic;
    var s := SumsOf(values);
    var slope := SlopeOf(s);
    SumsClosed(values);
    GuardForFewValues(values);
    SlopeIsQuotient(s);
    QuotientMinimizes(s, slope, a, b);
    ResidualExpanded(values, a, b);
    ResidualExpanded(values, Intercept(s, slope), slope);
  }

  // ----- What the slope responds to -----

  /** The values y + (a + b·i). */
  ghost function Tilted(values: seq<real>, a: real, b: real): seq<real> {
    seq(|values|, i requires 0 <= i < |values| => values[i] + (a + b * i as real))
  }

  ghost function TiltedSums(s: Sums, a: real, b: real): Sums {
    s.(y := s.y + s.n * a + b * s.x, xy := s.xy + a * s.x + b * s.xx)
  }

  lemma TiltAdd(s: Sums, v: real, a: real, b: real)
    ensures Add(TiltedSums(s, a, b), v + (a + b * s.n)) == TiltedSums(Add(s, v), a, b)
  {
    TiltY(s, v, a, b);
    TiltXY(s, v, a, b);
    SameSums(Add(TiltedSums(s, a, b), v + (a + b * s.n)), TiltedSums(Add(s, v), a, b));
  }

  lemma SameSums(s: Sums, t: Sums)
    requires s.n == t.n && s.x == t.x && s.xx == t.xx && s.y == t.y && s.xy == t.xy
    ensures s == t
  {
  }

  lemma TiltY(s: Sums, v: real, a: real, b: real)
    ensures Add(TiltedSums(s, a, b), v + (a + b * s.n)).y == TiltedSums(Add(s, v), a, b).y
  {
    assert (s.n + 1.0) * a == s.n * a + a;
    assert b * (s.x + s.n) == b * s.x + b * s.n;
  }

  lemma TiltXY(s: Sums, v: real, a: real, b: real)
    ensures Add(TiltedSums(s, a, b), v + (a + b * s.n)).xy == TiltedSums(Add(s, v), a, b).xy
  {
    var n := s.n;
    assert n * (v + (a + b * n)) == n * v + n * a + b * (n * n);
    assert a * (s.x + n) == a * s.x + n * a;
    assert b * (s.xx + n * n) == b * s.xx + b * (n * n);
  }

  lemma TiltedFront(values: seq<real>, a: real, b: real)
    requires values != []
    ensures var n := |values| - 1;
      Tilted(values, a, b)[..n] == Tilted(values[..n], a, b) && Tilted(values, a, b)[n] == values[n] + (a + b * n as real)
  {
  }

  lemma TiltNothing(a: real, b: real)
    ensures var zero := Sums(0.0, 0.0, 0.0, 0.0, 0.0); TiltedSums(zero, a, b) == zero
  {
  }

  lemma {:induction false} SumsOfTilted(values: seq<real>, a: real, b: real)
    ensures SumsOf(Tilted(values, a, b)) == TiltedSums(SumsOf(values), a, b)
  {
    hide Add;
    hide TiltedSums;
    if values == [] {
      TiltNothing(a, b);
    } else {
      var n := |values| - 1;
      var s := SumsOf(values[..n]);
      SumsOfTilted(values[..n], a, b);
      SumsClosed(values[..n]);
      TiltedFront(values, a, b);
      TiltAdd(s, values[n], a, b);
      assert s.n == n as real;
    }
  }

  lemma TiltedQuotient(s: Sums, a: real, b: real, slope: real, tilted: real)
    requires Denominator(s) > 0.0 && IsQuotient(s, slope) && IsQuotient(TiltedSums(s, a, b), tilted)
    ensures tilted == slope + b
  {
    var d := Denominator(s);
    assert Numerator(TiltedSums(s, a, b)) == Numerator(s) + b * d;
    assert d * tilted == d * (slope + b);
    Cancel(d, tilted, slope + b);
  }

  /** Adding a line to the values adds its slope: a vertical shift changes nothing. */
  lemma SlopeOfTilted(values: seq<real>, a: real, b: real)
    requires |values| >= 2
    ensures SlopeOf(SumsOf(Tilted(values, a, b))) == SlopeOf(SumsOf(values)) + b
  {
    hide SumsOf;
    hide SlopeOf;
    hide TiltedSums;
    var s := SumsOf(values);
    SumsOfTilted(values, a, b);
    GuardForFewValues(values);
    SlopeIsQuotient(s);
    SlopeIsQuotient(TiltedSums(s, a, b));
    TiltedQuotient(s, a, b, SlopeOf(s), SlopeOf(TiltedSums(s, a, b)));
  }

  lemma {:induction false} ZeroSums(values: seq<real>)
    requires forall i :: 0 <= i < |values| ==> values[i] == 0.0
    ensures SumsOf(values).y == 0.0 && SumsOf(values).xy == 0.0
  {
    if values != [] {
      ZeroSums(values[..|values| - 1]);
    }
  }

  lemma ZeroSlope(s: Sums)
    requires s.y == 0.0 && s.xy == 0.0
    ensures SlopeOf(s) == 0.0
  {
    assert Numerator(s) == 0.0;
  }

  lemma TiltedZero(n: nat, a: real, b: real)
    ensures var line := Tilted(seq(n, _ => 0.0), a, b);
      |line| == n && forall i :: 0 <= i < n ==> line[i] == a + b * i as real
  {
  }

  /** On the points of a line the result is exactly the slope of the line. */
  lemma SlopeOfLine(values: seq<real>, a: real, b: real)
    requires |values| >= 2 && forall i :: 0 <= i < |values| ==> values[i] == a + b * i as real
    ensures SlopeOf(SumsOf(values)) == b
  {
    hide SumsOf;
    hide SlopeOf;
    var zero: seq<real> := seq(|values|, _ => 0.0);
    ZeroSums(zero);
    ZeroSlope(SumsOf(zero));
    TiltedZero(|values|, a, b);
    assert values == Tilted(zero, a, b);
    SlopeOfTilted(zero, a, b);
  }
}
