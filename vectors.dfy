/** Dense vectors of reals: the dot product and the sum of squares that
    both similarity measures are built from, written as the left folds the
    source computes (`reduce` from index 0, or a `for` loop that adds one term
    per step), and the Cauchy-Schwarz inequality that bounds every cosine by 1. */
module Vectors {
  import opened Prelude

  /** `a.reduce((sum, x, i) => sum + x * b[i], 0)`. */
  function Dot(a: seq<real>, b: seq<real>): real
    requires |a| == |b|
  {
    if |a| == 0 then 0.0
    else Dot(a[..|a| - 1], b[..|b| - 1]) + a[|a| - 1] * b[|b| - 1]
  }

  /** `a.reduce((sum, x) => sum + x * x, 0)`. */
  function SumSquares(a: seq<real>): (r: real)
    ensures r >= 0.0
  {
    if |a| == 0 then 0.0
    else SumSquares(a[..|a| - 1]) + a[|a| - 1] * a[|a| - 1]
  }

  /** One more step of the left fold. */
  lemma {:induction false} DotPrefix(a: seq<real>, b: seq<real>, i: nat)
    requires |a| == |b| && i < |a|
    ensures Dot(a[..i + 1], b[..i + 1]) == Dot(a[..i], b[..i]) + a[i] * b[i]
  {
    assert a[..i + 1][..i] == a[..i] && b[..i + 1][..i] == b[..i];
  }

  lemma {:induction false} SumSquaresPrefix(a: seq<real>, i: nat)
    requires i < |a|
    ensures SumSquares(a[..i + 1]) == SumSquares(a[..i]) + a[i] * a[i]
  {
    assert a[..i + 1][..i] == a[..i];
  }

  /** The sum of squares is the dot product of a vector with itself. */
  lemma {:induction false} DotSelf(a: seq<real>)
    ensures Dot(a, a) == SumSquares(a)
  {
    if |a| > 0 {
      DotSelf(a[..|a| - 1]);
    }
  }

  predicate NonNegative(a: seq<real>)
  {
    forall i | 0 <= i < |a| :: 0.0 <= a[i]
  }

  /** Changing one coordinate changes the sum of squares by the difference
      of the squares. */
  lemma {:induction false} SumSquaresUpdate(a: seq<real>, j: nat, x: real)
    requires j < |a|
    ensures SumSquares(a[j := x]) == SumSquares(a) - a[j] * a[j] + x * x
  {
    var n := |a| - 1;
    var a' := a[j := x];
    if j == n {
      assert a'[..n] == a[..n];
    } else {
      SumSquaresUpdate(a[..n], j, x);
      assert a'[..n] == a[..n][j := x];
    }
  }

  /** Filling in a zero coordinate adds exactly the new square. */
  lemma {:induction false} SumSquaresFill(a: seq<real>, j: nat, x: real)
    requires j < |a| && a[j] == 0.0
    ensures SumSquares(a[j := x]) == SumSquares(a) + x * x
  {
    SumSquaresUpdate(a, j, x);
  }

  /** Filling in a zero coordinate adds at most the new square. */
  lemma {:induction false} FillAtMost(a: seq<real>, a': seq<real>, j: nat, x: real)
    requires j < |a'| && a'[j] == 0.0 && a == a'[j := x]
    ensures AtMostPlusSquare(SumSquares(a), SumSquares(a'), x)
  {
    SumSquaresFill(a', j, x);
  }

  /** Every coordinate's square is part of the sum of squares. */
  lemma {:induction false} SumSquaresAtLeast(a: seq<real>, i: nat)
    requires i < |a|
    ensures SumSquares(a) >= a[i] * a[i]
  {
    if i < |a| - 1 {
      SumSquaresAtLeast(a[..|a| - 1], i);
    }
  }

  lemma {:induction false} DotNonNegative(a: seq<real>, b: seq<real>)
    requires |a| == |b| && NonNegative(a) && NonNegative(b)
    ensures Dot(a, b) >= 0.0
  {
    if |a| > 0 {
      DotNonNegative(a[..|a| - 1], b[..|b| - 1]);
      Positive0(a[|a| - 1], b[|b| - 1]);
    }
  }

  /** With non-negative coordinates, the dot product is at least each of
      its terms. */
  lemma {:induction false} DotAtLeastTerm(a: seq<real>, b: seq<real>, i: nat)
    requires |a| == |b| && NonNegative(a) && NonNegative(b) && i < |a|
    ensures Dot(a, b) >= a[i] * b[i]
  {
    var n := |a| - 1;
    if i == n {
      DotNonNegative(a[..n], b[..n]);
    } else {
      DotAtLeastTerm(a[..n], b[..n], i);
      Positive0(a[n], b[n]);
    }
  }

  /** A zero vector is orthogonal to everything. */
  lemma {:induction false} DotZero(a: seq<real>, b: seq<real>)
    requires |a| == |b|
    requires forall i | 0 <= i < |a| :: a[i] == 0.0
    ensures Dot(a, b) == 0.0
  {
    if |a| > 0 {
      DotZero(a[..|a| - 1], b[..|b| - 1]);
    }
  }

  /** The sum of squares vanishes exactly on the zero vector. */
  lemma {:induction false} SumSquaresZero(a: seq<real>)
    ensures SumSquares(a) == 0.0 <==> forall i | 0 <= i < |a| :: a[i] == 0.0
  {
    if |a| > 0 {
      var n := |a| - 1;
      SumSquaresZero(a[..n]);
      if SumSquares(a) == 0.0 {
        SquareNonNegative(a[n]);
        assert a[n] * a[n] == 0.0;
        ZeroSquare(a[n]);
      }
    }
  }

  // Facts of real multiplication. Each is stated once, on its own, so that
  // the solver proves it in a small context: inside the larger proofs that
  // use them the same nonlinear step is not found reliably.

  lemma Positive(x: real, y: real)
    requires x > 0.0 && y > 0.0
    ensures x * y > 0.0
  {
  }

  lemma Square(x: real, y: real)
    ensures (x * y) * (x * y) == (x * x) * (y * y)
  {
  }

  lemma Positive0(x: real, y: real)
    requires 0.0 <= x && 0.0 <= y
    ensures 0.0 <= x * y
  {
  }

  lemma MulRight(x: real, y: real, z: real)
    requires x <= y && 0.0 <= z
    ensures x * z <= y * z
  {
  }

  lemma AtLeastOne(x: real, y: real)
    requires 1.0 <= x && 1.0 <= y
    ensures 1.0 <= x * y
  {
  }

  lemma SquareNonNegative(x: real)
    ensures x * x >= 0.0
  {
  }

  /** Products of equal factors are equal: stated once so that the solver
      need not rediscover it inside a larger context. */
  lemma SameProduct(x: real, y: real, x': real, y': real)
    requires x == x' && y == y'
    ensures x * y == x' * y'
  {
  }

  lemma ZeroTimes(x: real, y: real)
    requires x == 0.0
    ensures x * y == 0.0
  {
  }

  /** Stated on two equal factors: the solver handles `x * y` here more
      reliably than the square `x * x`. */
  lemma ProductZero(x: real, y: real)
    requires x * y == 0.0 && x == y
    ensures x == 0.0
  {
    if x > 0.0 {
      Positive(x, y);
    } else if x < 0.0 {
      Positive(-x, -y);
    }
  }

  lemma NonZeroProduct(x: real, y: real)
    requires x != 0.0 && y != 0.0
    ensures x * y != 0.0
  {
    if (x > 0.0) == (y > 0.0) {
      if x > 0.0 { Positive(x, y); } else { Positive(-x, -y); }
    } else {
      if x > 0.0 { Positive(x, -y); } else { Positive(-x, y); }
    }
  }

  lemma ZeroSquare(x: real)
    requires x * x == 0.0
    ensures x == 0.0
  {
    ProductZero(x, x);
  }

  /** sum over i of (a[i]*y - x*b[i])^2. */
  ghost function Cross(a: seq<real>, b: seq<real>, x: real, y: real): (r: real)
    requires |a| == |b|
    ensures r >= 0.0
  {
    if |a| == 0 then 0.0
    else
      var d := a[|a| - 1] * y - x * b[|b| - 1];
      Cross(a[..|a| - 1], b[..|b| - 1], x, y) + d * d
  }

  /** `C` is the quadratic form `P y^2 - 2 x y D + x^2 S`. */
  ghost predicate Expands(C: real, P: real, S: real, D: real, x: real, y: real)
  {
    C == P * y * y - 2.0 * x * y * D + x * x * S
  }

  /** One step of the four folds: what the last coordinates `p` and `q`
      add to `Cross`, to both sums of squares and to the dot product. */
  ghost predicate Unfolded(C': real, C: real, P': real, P: real, S': real, S: real, D': real, D: real,
                           p: real, q: real, x: real, y: real)
  {
    && C' == C + (p * y - x * q) * (p * y - x * q)
    && P' == P + p * p && S' == S + q * q && D' == D + p * q
  }

  lemma {:induction false} CrossUnfold(a: seq<real>, b: seq<real>, x: real, y: real)
    requires |a| == |b| && |a| > 0
    ensures var a', b', p, q := a[..|a| - 1], b[..|b| - 1], a[|a| - 1], b[|b| - 1];
      Unfolded(Cross(a, b, x, y), Cross(a', b', x, y), SumSquares(a), SumSquares(a'),
               SumSquares(b), SumSquares(b'), Dot(a, b), Dot(a', b'), p, q, x, y)
  {
  }

  /** The sum of squares of the combinations expands into the two sums of
      squares and the dot product. */
  lemma {:induction false} CrossExpands(a: seq<real>, b: seq<real>, x: real, y: real)
    requires |a| == |b|
    ensures Expands(Cross(a, b, x, y), SumSquares(a), SumSquares(b), Dot(a, b), x, y)
  {
    if |a| > 0 {
      var a', b' := a[..|a| - 1], b[..|b| - 1];
      CrossExpands(a', b', x, y);
      CrossUnfold(a, b, x, y);
      CrossStep(Cross(a', b', x, y), Cross(a, b, x, y), SumSquares(a'), SumSquares(b'), Dot(a', b'),
                SumSquares(a), SumSquares(b), Dot(a, b), a[|a| - 1], b[|b| - 1], x, y);
    } else {
      ZeroForm(x, y);
    }
  }

  lemma ZeroForm(x: real, y: real)
    ensures Expands(0.0, 0.0, 0.0, 0.0, x, y)
  {
  }

  lemma CrossStep(C: real, C': real, P: real, S: real, D: real, P': real, S': real, D': real,
                  p: real, q: real, x: real, y: real)
    requires Expands(C, P, S, D, x, y)
    requires Unfolded(C', C, P', P, S', S, D', D, p, q, x, y)
    ensures Expands(C', P', S', D', x, y)
  {
  }

  /** Cauchy-Schwarz: the squared dot product is at most the product of the
      sums of squares. The proof picks the coefficients of the non-negative
      quadratic form `Cross` that make it collapse to the claim. */
  lemma {:induction false} CauchySchwarz(a: seq<real>, b: seq<real>)
    requires |a| == |b|
    ensures SquareAtMost(Dot(a, b), SumSquares(a), SumSquares(b))
  {
    var A, B, D := SumSquares(a), SumSquares(b), Dot(a, b);
    if B > 0.0 {
      CrossExpands(a, b, D, B);
      QuadraticAtVertex(A, B, D, Cross(a, b, D, B));
    } else if D != 0.0 {
      var t := (A + 1.0) / (2.0 * D);
      CrossExpands(a, b, t, 1.0);
      NegativeAtPoint(A, B, D, t, Cross(a, b, t, 1.0));
      assert false;
    }
  }

  /** With `B > 0`, the form at `x = D`, `y = B` is `B (A B - D^2)`. */
  lemma QuadraticAtVertex(A: real, B: real, D: real, Q: real)
    requires B > 0.0 && 0.0 <= Q && Expands(Q, A, B, D, D, B)
    ensures SquareAtMost(D, A, B)
  {
    assert Q == B * (A * B - D * D);
  }

  /** With `B == 0` and `D != 0`, the form at `x = t`, `y = 1` is
      `A - 2 t D`, which is -1 at this `t`. */
  lemma NegativeAtPoint(A: real, B: real, D: real, t: real, Q: real)
    requires B == 0.0 && D != 0.0 && t == (A + 1.0) / (2.0 * D) && Expands(Q, A, B, D, t, 1.0)
    ensures Q < 0.0
  {
  }

  /** `s <= t + x * x`, kept as one predicate so that the nonlinear fact
      travels between lemmas as a single fact. */
  ghost predicate AtMostPlusSquare(s: real, t: real, x: real)
  {
    s <= t + x * x
  }

  /** `d * d <= x * y`, kept as one predicate so that the nonlinear fact
      travels between lemmas as a single fact. */
  ghost predicate SquareAtMost(d: real, x: real, y: real)
  {
    d * d <= x * y
  }

  /** A dot product divided by the product of the two square roots of sums
      of squares that bound it lies in [-1, 1]; it is 1 when the dot product
      equals both of them. */
  lemma CosineBounds(d: real, qq: real, mm: real, sqrt: real -> real)
    requires IsSqrt(sqrt)
    requires 0.0 < qq && 0.0 < mm && SquareAtMost(d, qq, mm)
    ensures -1.0 <= d / (sqrt(qq) * sqrt(mm)) <= 1.0
    ensures d == qq == mm ==> d / (sqrt(qq) * sqrt(mm)) == 1.0
    ensures 0.0 < d ==> 0.0 < d / (sqrt(qq) * sqrt(mm))
  {
    var sq, sm := sqrt(qq), sqrt(mm);
    assert sq * sq == qq && sm * sm == mm;
    var s := sq * sm;
    Positive(sq, sm);
    assert s * s == qq * mm by { Square(sq, sm); }
    AbsBelow(d, s);
    assert d / (sqrt(qq) * sqrt(mm)) == d / s;
    if d == qq == mm {
      assert s == qq;
    }
  }

  /** The same bound stated on two positive roots `sq` and `sm` of the
      sums of squares, without the square-root function. */
  lemma RootsCosine(d: real, qq: real, mm: real, sq: real, sm: real)
    requires 0.0 < sq && 0.0 < sm && sq * sq == qq && sm * sm == mm && SquareAtMost(d, qq, mm)
    ensures -1.0 <= d / (sq * sm) <= 1.0
  {
    var s := sq * sm;
    Positive(sq, sm);
    assert s * s == qq * mm by { Square(sq, sm); }
    AbsBelow(d, s);
  }

  /** The square roots of two positive numbers have a positive product. */
  lemma SqrtProductPositive(x: real, y: real, sqrt: real -> real)
    requires IsSqrt(sqrt) && 0.0 <= x && 0.0 <= y && x != 0.0 && y != 0.0
    ensures sqrt(x) * sqrt(y) > 0.0
  {
    var sx, sy := sqrt(x), sqrt(y);
    assert sx * sx == x && sy * sy == y;
    assert sx != 0.0 && sy != 0.0;
    Positive(sx, sy);
  }

  /** |d| <= s whenever d^2 <= s^2 and s > 0, stated on the quotient. */
  lemma AbsBelow(d: real, s: real)
    requires s > 0.0 && d * d <= s * s
    ensures -1.0 <= d / s <= 1.0
  {
    assert -s <= d <= s;
  }
}
