/** The six distance kernels of HyperVectorDB/Math.cs, over exact reals.

    Every kernel walks i from 0 up to |x| and reads y[i], so y must be at
    least as long as x; only the first |x| coordinates of y take part. Each
    running sum of the source becomes a function of the prefix length n,
    accumulated in the same left-to-right order. System.Math.Sqrt is the
    parameter `sqrt`, about which the model assumes only that it is the
    non-negative square root on the non-negative reals (IsSqrt). */
module Kernels {

  type Vector = seq<real>

  function Abs(r: real): (a: real)
    ensures 0.0 <= a && (a == r || a == -r)
  {
    if r < 0.0 then -r else r
  }

  /** `sqrt` behaves as the square root on every non-negative real. The
      square is written `Times(sqrt(r), sqrt(r))`, which is the same real
      as `sqrt(r) * sqrt(r)`: keeping the product behind `Times` lets the
      sign lemmas about squares (SquareFacts) apply to it directly, where
      the solver does not derive them from a bare product on its own. */
  ghost predicate IsSqrt(sqrt: real -> real) {
    forall r :: 0.0 <= r ==> 0.0 <= sqrt(r) && Times(sqrt(r), sqrt(r)) == r
  }

  /** The first n coordinates of x and y coincide. */
  ghost predicate AgreeUpTo(x: Vector, y: Vector, n: nat)
    requires n <= |x| && n <= |y|
  {
    forall i :: 0 <= i < n ==> x[i] == y[i]
  }

  /** x equals the prefix of y that a kernel reads. */
  ghost predicate Agree(x: Vector, y: Vector)
    requires |x| <= |y|
  {
    AgreeUpTo(x, y, |x|)
  }

  /** The first n coordinates of x are all zero. */
  ghost predicate ZeroUpTo(x: Vector, n: nat)
    requires n <= |x|
  {
    forall i :: 0 <= i < n ==> x[i] == 0.0
  }

  // ---------------------------------------------------------------------
  // Real arithmetic facts the kernels lean on
  // ---------------------------------------------------------------------

  /** Real product, kept behind a function so that facts about a square
      are stated about one term rather than re-derived at every use. */
  function Times(a: real, b: real): real {
    a * b
  }

  lemma TimesPositive(a: real, b: real)
    requires 0.0 < a && 0.0 < b
    ensures 0.0 < Times(a, b)
  {
  }

  lemma TimesNegate(a: real, b: real)
    ensures Times(-a, -b) == Times(a, b)
  {
  }

  /** A square is non-negative, and zero only for zero. */
  lemma SquareFacts(d: real)
    ensures 0.0 <= Times(d, d)
    ensures d != 0.0 ==> 0.0 < Times(d, d)
    ensures d == 0.0 ==> Times(d, d) == 0.0
  {
    if d > 0.0 {
      TimesPositive(d, d);
    } else if d < 0.0 {
      TimesPositive(-d, -d);
      TimesNegate(d, d);
    }
  }

  lemma SquareMonotone(a: real, b: real)
    requires 0.0 <= b < a
    ensures b * b < a * a
  {
    var c := a - b;
    assert a * a == b * b + 2.0 * b * c + c * c;
    assert 0.0 <= b * c;
    assert 0.0 < c * c;
  }

  /** A ratio of a numerator within [0, den] lies in [0, 1], is 0 exactly
      for a zero numerator and 1 exactly for a numerator equal to den. */
  lemma RatioInUnitRange(a: real, den: real)
    requires 0.0 < den && 0.0 <= a <= den
    ensures 0.0 <= a / den <= 1.0
    ensures a / den == 0.0 <==> a == 0.0
    ensures a / den == 1.0 <==> a == den
  {
    assert a / den * den == a;
  }

  // ---------------------------------------------------------------------
  // Cosine (Math.cs CosineSimilarity)
  // ---------------------------------------------------------------------

  /** The sum of x[i] * y[i] over i < n. */
  function Dot(x: Vector, y: Vector, n: nat): real
    requires n <= |x| && n <= |y|
  {
    if n == 0 then 0.0 else Dot(x, y, n - 1) + x[n - 1] * y[n - 1]
  }

  lemma {:induction false} SquaresNonNegative(x: Vector, n: nat)
    requires n <= |x|
    ensures 0.0 <= Dot(x, x, n)
  {
    if n > 0 {
      SquaresNonNegative(x, n - 1);
      assert 0.0 <= x[n - 1] * x[n - 1];
    }
  }

  /** A dot product against a vector that is zero on the prefix vanishes. */
  lemma {:induction false} DotWithZero(x: Vector, y: Vector, n: nat)
    requires n <= |x| && n <= |y|
    requires ZeroUpTo(x, n) || ZeroUpTo(y, n)
    ensures Dot(x, y, n) == 0.0
  {
    if n > 0 {
      DotWithZero(x, y, n - 1);
    }
  }

  /** The sum over i < n of (a * y[i] - b * x[i])^2. */
  function Cross(x: Vector, y: Vector, a: real, b: real, n: nat): real
    requires n <= |x| && n <= |y|
  {
    if n == 0 then 0.0
    else Cross(x, y, a, b, n - 1) + (a * y[n - 1] - b * x[n - 1]) * (a * y[n - 1] - b * x[n - 1])
  }

  lemma {:induction false} CrossNonNegative(x: Vector, y: Vector, a: real, b: real, n: nat)
    requires n <= |x| && n <= |y|
    ensures 0.0 <= Cross(x, y, a, b, n)
  {
    if n > 0 {
      CrossNonNegative(x, y, a, b, n - 1);
      var t := a * y[n - 1] - b * x[n - 1];
      assert 0.0 <= t * t;
    }
  }

  lemma {:induction false} CrossExpands(x: Vector, y: Vector, a: real, b: real, n: nat)
    requires n <= |x| && n <= |y|
    ensures Cross(x, y, a, b, n)
         == a * a * Dot(y, y, n) - 2.0 * a * b * Dot(x, y, n) + b * b * Dot(x, x, n)
  {
    if n > 0 {
      CrossExpands(x, y, a, b, n - 1);
      var u, v := x[n - 1], y[n - 1];
      assert (a * v - b * u) * (a * v - b * u) == a * a * (v * v) - 2.0 * a * b * (u * v) + b * b * (u * u);
    }
  }

  /** The Cauchy-Schwarz inequality on the first n coordinates, by
      Lagrange's identity: each new coordinate adds a sum of squares. */
  lemma {:induction false} CauchySchwarz(x: Vector, y: Vector, n: nat)
    requires n <= |x| && n <= |y|
    ensures Dot(x, y, n) * Dot(x, y, n) <= Dot(x, x, n) * Dot(y, y, n)
  {
    if n > 0 {
      var m := n - 1;
      CauchySchwarz(x, y, m);
      var a, b := x[m], y[m];
      var X, Y, D := Dot(x, x, m), Dot(y, y, m), Dot(x, y, m);
      CrossExpands(x, y, a, b, m);
      CrossNonNegative(x, y, a, b, m);
      assert (X + a * a) * (Y + b * b) - (D + a * b) * (D + a * b)
          == (X * Y - D * D) + (a * a * Y - 2.0 * a * b * D + b * b * X);
    }
  }

  /** |d| <= s and 0 < s <= 1 give -1 <= d / s <= 1. */
  lemma QuotientInUnitRange(d: real, s: real)
    requires 0.0 < s && -s <= d <= s
    ensures -1.0 <= d / s <= 1.0
  {
    assert d / s * s == d;
  }

  /** The product of the two norms the cosine kernel divides by bounds the
      dot product, and is positive whenever the dot product is not zero. */
  lemma {:induction false} CosineNormBound(x: Vector, y: Vector, sqrt: real -> real)
    requires |x| <= |y| && IsSqrt(sqrt)
    ensures var s := sqrt(Dot(x, x, |x|)) * sqrt(Dot(y, y, |x|));
            && 0.0 <= s
            && -s <= Dot(x, y, |x|) <= s
            && (Dot(x, y, |x|) != 0.0 ==> 0.0 < s)
  {
    var n := |x|;
    var X, Y, D := Dot(x, x, n), Dot(y, y, n), Dot(x, y, n);
    CauchySchwarz(x, y, n);
    SquaresNonNegative(x, n);
    SquaresNonNegative(y, n);
    RootProduct(sqrt, X, Y);
    BoundBySquare(D, sqrt(X) * sqrt(Y), X * Y);
  }

  /** The product of two square roots is a non-negative root of the
      product. */
  lemma RootProduct(sqrt: real -> real, X: real, Y: real)
    requires IsSqrt(sqrt) && 0.0 <= X && 0.0 <= Y
    ensures 0.0 <= sqrt(X) * sqrt(Y)
    ensures (sqrt(X) * sqrt(Y)) * (sqrt(X) * sqrt(Y)) == X * Y
  {
    var sx, sy := sqrt(X), sqrt(Y);
    assert 0.0 <= sx && sx * sx == X by {
      assert Times(sx, sx) == X;
    }
    assert 0.0 <= sy && sy * sy == Y by {
      assert Times(sy, sy) == Y;
    }
    assert (sx * sy) * (sx * sy) == (sx * sx) * (sy * sy);
  }

  /** A real whose square is at most the square P of a non-negative s lies
      in [-s, s], and s is positive when that real is not zero. */
  lemma BoundBySquare(d: real, s: real, P: real)
    requires 0.0 <= s && s * s == P && d * d <= P
    ensures -s <= d <= s
    ensures d != 0.0 ==> 0.0 < s
  {
    if d > s {
      SquareMonotone(d, s);
    }
    if -d > s {
      SquareMonotone(-d, s);
    }
    if d != 0.0 {
      SquareFacts(d);
      assert 0.0 < d * d by {
        assert Times(d, d) == d * d;
      }
    }
  }

  /** 1 - cos(x, y), or exactly 1 when the dot product is zero; only the
      first |x| coordinates of y are read, for both the dot product and the
      norm of y. */
  function CosineSimilarity(x: Vector, y: Vector, sqrt: real -> real): (r: real)
    requires |x| <= |y| && IsSqrt(sqrt)
    ensures Dot(x, y, |x|) == 0.0 ==> r == 1.0
    ensures 0.0 <= r <= 2.0
  {
    var d := Dot(x, y, |x|);
    var norms := sqrt(Dot(x, x, |x|)) * sqrt(Dot(y, y, |x|));
    CosineNormBound(x, y, sqrt);
    if d != 0.0 then
      QuotientInUnitRange(d, norms);
      1.0 - d / norms
    else
      1.0
  }

  /** A non-zero vector is at cosine distance 0 from itself. */
  lemma CosineOfSelf(x: Vector, sqrt: real -> real)
    requires IsSqrt(sqrt) && Dot(x, x, |x|) != 0.0
    ensures CosineSimilarity(x, x, sqrt) == 0.0
  {
    var X := Dot(x, x, |x|);
    SquaresNonNegative(x, |x|);
    assert sqrt(X) * sqrt(X) == X by {
      assert Times(sqrt(X), sqrt(X)) == X;
    }
  }

  /** Against a vector that is zero where it is read, the kernel yields 1. */
  lemma CosineOfZero(x: Vector, y: Vector, sqrt: real -> real)
    requires |x| <= |y| && IsSqrt(sqrt)
    requires ZeroUpTo(x, |x|) || ZeroUpTo(y, |x|)
    ensures CosineSimilarity(x, y, sqrt) == 1.0
  {
    DotWithZero(x, y, |x|);
  }

  // ---------------------------------------------------------------------
  // Jaccard (Math.cs JaccardDissimilarity)
  // ---------------------------------------------------------------------

  /** The two integer counters of the Jaccard loop. */
  datatype Tally = Tally(matches: nat, considered: nat)

  /** Over i < n: `considered` counts positions where x or y is non-zero,
      `matches` those among them where x and y are equal. */
  function JaccardTally(x: Vector, y: Vector, n: nat): (t: Tally)
    requires n <= |x| && n <= |y|
    ensures t.matches <= t.considered <= n
    ensures t.matches == t.considered <==> AgreeUpTo(x, y, n)
  {
    if n == 0 then Tally(0, 0)
    else
      var t := JaccardTally(x, y, n - 1);
      if x[n - 1] != 0.0 || y[n - 1] != 0.0 then
        Tally(if x[n - 1] == y[n - 1] then t.matches + 1 else t.matches, t.considered + 1)
      else
        t
  }

  /** 1 - matches / considered, or 0 when no position was considered. */
  function JaccardDissimilarity(x: Vector, y: Vector): (r: real)
    requires |x| <= |y|
    ensures 0.0 <= r <= 1.0
    ensures r == 0.0 <==> Agree(x, y)
  {
    var t := JaccardTally(x, y, |x|);
    if t.considered != 0 then
      RatioInUnitRange(t.matches as real, t.considered as real);
      1.0 - (t.matches as real) / (t.considered as real)
    else
      0.0
  }

  /** Two vectors that are zero everywhere read give dissimilarity 0. */
  lemma JaccardOfZeros(x: Vector, y: Vector)
    requires |x| <= |y| && ZeroUpTo(x, |x|) && ZeroUpTo(y, |x|)
    ensures JaccardDissimilarity(x, y) == 0.0
  {
    assert Agree(x, y);
  }

  // ---------------------------------------------------------------------
  // Euclidean (Math.cs EuclideanDistance)
  // ---------------------------------------------------------------------

  /** The sum of (x[i] - y[i])^2 over i < n. */
  function SquaredDistance(x: Vector, y: Vector, n: nat): real
    requires n <= |x| && n <= |y|
  {
    if n == 0 then 0.0
    else
      var d := x[n - 1] - y[n - 1];
      SquaredDistance(x, y, n - 1) + Times(d, d)
  }

  /** The sum of squares is non-negative and is 0 exactly when the
      prefixes agree. */
  lemma {:induction false} SquaredDistanceBounds(x: Vector, y: Vector, n: nat)
    requires n <= |x| && n <= |y|
    ensures 0.0 <= SquaredDistance(x, y, n)
    ensures SquaredDistance(x, y, n) == 0.0 <==> AgreeUpTo(x, y, n)
  {
    if n > 0 {
      SquaredDistanceBounds(x, y, n - 1);
      SquareFacts(x[n - 1] - y[n - 1]);
    }
  }

  function EuclideanDistance(x: Vector, y: Vector, sqrt: real -> real): (r: real)
    requires |x| <= |y| && IsSqrt(sqrt)
    ensures 0.0 <= r && Times(r, r) == SquaredDistance(x, y, |x|)
  {
    SquaredDistanceBounds(x, y, |x|);
    sqrt(SquaredDistance(x, y, |x|))
  }

  /** The Euclidean distance is 0 exactly when the read prefixes agree. */
  lemma EuclideanZeroIff(x: Vector, y: Vector, sqrt: real -> real)
    requires |x| <= |y| && IsSqrt(sqrt)
    ensures EuclideanDistance(x, y, sqrt) == 0.0 <==> Agree(x, y)
  {
    SquaredDistanceBounds(x, y, |x|);
    SquareFacts(EuclideanDistance(x, y, sqrt));
  }

  // ---------------------------------------------------------------------
  // Manhattan (Math.cs ManhattanDistance)
  // ---------------------------------------------------------------------

  /** The sum of |x[i] - y[i]| over i < n. */
  function AbsDistance(x: Vector, y: Vector, n: nat): real
    requires n <= |x| && n <= |y|
  {
    if n == 0 then 0.0 else AbsDistance(x, y, n - 1) + Abs(x[n - 1] - y[n - 1])
  }

  /** Every term of the sum is at most the sum, which is 0 exactly when
      the prefixes agree. */
  lemma {:induction false} AbsDistanceBounds(x: Vector, y: Vector, n: nat)
    requires n <= |x| && n <= |y|
    ensures 0.0 <= AbsDistance(x, y, n)
    ensures forall i :: 0 <= i < n ==> Abs(x[i] - y[i]) <= AbsDistance(x, y, n)
    ensures AbsDistance(x, y, n) == 0.0 <==> AgreeUpTo(x, y, n)
  {
    if n > 0 {
      AbsDistanceBounds(x, y, n - 1);
    }
  }

  function ManhattanDistance(x: Vector, y: Vector): (r: real)
    requires |x| <= |y|
    ensures 0.0 <= r
    ensures forall i :: 0 <= i < |x| ==> Abs(x[i] - y[i]) <= r
    ensures r == 0.0 <==> Agree(x, y)
  {
    AbsDistanceBounds(x, y, |x|);
    AbsDistance(x, y, |x|)
  }

  // ---------------------------------------------------------------------
  // Chebyshev (Math.cs ChebyshevDistance)
  // ---------------------------------------------------------------------

  /** The running maximum of |x[i] - y[i]|, seeded with coordinate 0 and
      replaced only by a strictly larger term. */
  function RunningMax(x: Vector, y: Vector, n: nat): (m: real)
    requires 1 <= n <= |x| && n <= |y|
    ensures forall i :: 0 <= i < n ==> Abs(x[i] - y[i]) <= m
    ensures exists i :: 0 <= i < n && m == Abs(x[i] - y[i])
  {
    if n == 1 then Abs(x[0] - y[0])
    else
      var m := RunningMax(x, y, n - 1);
      var d := Abs(x[n - 1] - y[n - 1]);
      if d > m then d else m
  }

  /** The largest coordinate difference; the source reads x[0], so x must
      have at least one coordinate. */
  function ChebyshevDistance(x: Vector, y: Vector): (r: real)
    requires 1 <= |x| <= |y|
    ensures forall i :: 0 <= i < |x| ==> Abs(x[i] - y[i]) <= r
    ensures exists i :: 0 <= i < |x| && r == Abs(x[i] - y[i])
  {
    RunningMax(x, y, |x|)
  }

  /** The maximum difference never exceeds the sum of differences. */
  lemma ChebyshevAtMostManhattan(x: Vector, y: Vector)
    requires 1 <= |x| <= |y|
    ensures ChebyshevDistance(x, y) <= ManhattanDistance(x, y)
  {
    var c := ChebyshevDistance(x, y);
    var i :| 0 <= i < |x| && c == Abs(x[i] - y[i]);
  }

  /** The Chebyshev distance is 0 exactly when the read prefixes agree. */
  lemma ChebyshevZeroIff(x: Vector, y: Vector)
    requires 1 <= |x| <= |y|
    ensures ChebyshevDistance(x, y) == 0.0 <==> Agree(x, y)
  {
    if Agree(x, y) {
      var i :| 0 <= i < |x| && ChebyshevDistance(x, y) == Abs(x[i] - y[i]);
    }
  }

  // ---------------------------------------------------------------------
  // Canberra (Math.cs CanberraDistance)
  // ---------------------------------------------------------------------

  /** No coordinate read is zero in both vectors, so no Canberra term is 0/0. */
  ghost predicate NoDoubleZero(x: Vector, y: Vector, n: nat)
    requires n <= |x| && n <= |y|
  {
    forall i :: 0 <= i < n ==> x[i] != 0.0 || y[i] != 0.0
  }

  /** The sum of |x[i] - y[i]| / (|x[i]| + |y[i]|) over i < n; each term lies
      in [0, 1] and vanishes exactly when the coordinates are equal. */
  function CanberraSum(x: Vector, y: Vector, n: nat): (s: real)
    requires n <= |x| && n <= |y| && NoDoubleZero(x, y, n)
    ensures 0.0 <= s <= n as real
    ensures s == 0.0 <==> AgreeUpTo(x, y, n)
  {
    if n == 0 then 0.0
    else
      var a, b := x[n - 1], y[n - 1];
      var den := Abs(a) + Abs(b);
      assert 0.0 < den;
      RatioInUnitRange(Abs(a - b), den);
      CanberraSum(x, y, n - 1) + Abs(a - b) / den
  }

  function CanberraDistance(x: Vector, y: Vector): (r: real)
    requires |x| <= |y| && NoDoubleZero(x, y, |x|)
    ensures 0.0 <= r <= |x| as real
    ensures r == 0.0 <==> Agree(x, y)
  {
    CanberraSum(x, y, |x|)
  }
}
