/** The Wilson score lower bound over exact reals, for any positive `z`; the program
    uses 1.96. The square root enters as any number that satisfies its defining
    equation. */
module Wilson {

  function Max0(x: real): real {
    if x < 0.0 then 0.0 else x
  }

  function Radicand(positive: int, n: int, z: real): real
    requires n > 0
  {
    var p := positive as real / n as real;
    p * (1.0 - p) / n as real + z * z / (4.0 * n as real * n as real)
  }

  predicate IsSqrt(s: real, x: real) {
    s >= 0.0 && s * s == x
  }

  /** The score, given the square root of the radicand. */
  function LowerBound(positive: int, n: int, z: real, root: real): real {
    if n <= 0 then 0.0
    else
      var p := positive as real / n as real;
      var z2 := z * z;
      var denom := 1.0 + z2 / n as real;
      var centre := p + z2 / (2.0 * n as real);
      var margin := z * root;
      Max0((centre - margin) / denom)
  }

  // ---- the quadratic ----

  /** `(p - x)^2 - w x (1 - x)` with `p = k / n` and `w = z^2 / n`: zero where the
      observed proportion lies exactly `z` standard errors from `x`. */
  function Gap(p: real, w: real, x: real): real {
    (p - x) * (p - x) - w * x * (1.0 - x)
  }

  /** `x` is the smaller solution, with `c` the centre and `m` the margin. */
  predicate IsLower(p: real, w: real, c: real, m: real, x: real) {
    && 0.0 <= p <= 1.0 && w > 0.0 && m >= 0.0
    && c == p + w / 2.0
    && m * m == w * p * (1.0 - p) + w * w / 4.0
    && (1.0 + w) * x == c - m
  }

  lemma Signs(a: real, b: real)
    ensures a >= 0.0 && b >= 0.0 ==> a * b >= 0.0
    ensures a > 0.0 && b > 0.0 ==> a * b > 0.0
    ensures a < 0.0 && b > 0.0 ==> a * b < 0.0
    ensures a < 0.0 && b < 0.0 ==> a * b > 0.0
    ensures a <= 0.0 && b >= 0.0 ==> a * b <= 0.0
    ensures a * b == 0.0 <==> a == 0.0 || b == 0.0
  {
  }

  lemma SquareMonotone(a: real, b: real)
    requires a >= 0.0 && b >= 0.0 && a * a <= b * b
    ensures a <= b
  {
    assert (a - b) * (a + b) == a * a - b * b;
    Signs(a - b, a + b);
  }

  lemma MarginBounds(p: real, w: real, c: real, m: real, x: real)
    requires IsLower(p, w, c, m, x)
    ensures w / 2.0 <= m <= c
    ensures m == c <==> p == 0.0
    ensures m == w / 2.0 <==> p == 0.0 || p == 1.0
  {
    Signs(p, 1.0 - p);
    Signs(w, p * (1.0 - p));
    assert m * m == w * (p * (1.0 - p)) + (w / 2.0) * (w / 2.0);
    SquareMonotone(w / 2.0, m);
    assert c * c == m * m + (p * p) * (1.0 + w);
    Signs(p, p);
    Signs(p * p, 1.0 + w);
    SquareMonotone(m, c);
  }

  lemma GapAt(p: real, w: real, c: real, m: real, x: real, y: real)
    requires IsLower(p, w, c, m, x)
    ensures (1.0 + w) * Gap(p, w, y) == ((1.0 + w) * y - c - m) * ((1.0 + w) * (y - x))
  {
    var d := 1.0 + w;
    var u := d * y - c;
    assert Gap(p, w, y) == d * (y * y) - 2.0 * (c * y) + p * p;
    assert d * Gap(p, w, y) == (d * y) * (d * y) - 2.0 * c * (d * y) + d * (p * p);
    assert c * c - m * m == d * (p * p);
    assert d * Gap(p, w, y) == u * u - m * m;
    assert d * (y - x) == u + m;
    assert u * u - m * m == (u - m) * (u + m);
  }

  /** Where the smaller solution lies. */
  lemma LowerRange(p: real, w: real, c: real, m: real, x: real)
    requires IsLower(p, w, c, m, x)
    ensures 0.0 <= x <= p && x < 1.0
    ensures x == 0.0 <==> p == 0.0
    ensures Gap(p, w, x) == 0.0
  {
    MarginBounds(p, w, c, m, x);
    var d := 1.0 + w;
    Signs(x, d);
    Signs(w, p);
    Signs(p - x, d);
    assert (p - x) * d == p + w * p - (c - m);
    Signs(1.0 - x, d);
    assert (1.0 - x) * d == d - (c - m);
    GapAt(p, w, c, m, x, x);
    Signs(d, Gap(p, w, x));
  }

  lemma FactorSigns(d: real, g: real, right: real, e: real)
    requires d > 0.0 && right <= 0.0 && d * g == right * (d * e)
    ensures g > 0.0 <==> e < 0.0 && right < 0.0
    ensures g == 0.0 <==> e == 0.0 || right == 0.0
  {
    Signs(d, e);
    Signs(-d, e);
    Signs(d, -e);
    Signs(right, d * e);
    Signs(-right, d * e);
    Signs(d, g);
    Signs(d, -g);
  }

  /** Up to `p` the gap is positive left of the solution and negative right of it,
      except that a perfect record also closes the gap at 1. */
  lemma GapSign(p: real, w: real, c: real, m: real, x: real, y: real)
    requires IsLower(p, w, c, m, x) && y <= p
    ensures Gap(p, w, y) > 0.0 <==> y < x
    ensures Gap(p, w, y) == 0.0 <==> y == x || (p == 1.0 && y == 1.0)
  {
    var g, right := Gap(p, w, y), (1.0 + w) * y - c - m;
    assert (1.0 + w) * g == right * ((1.0 + w) * (y - x)) by {
      GapAt(p, w, c, m, x, y);
    }
    assert right <= 0.0 && (right == 0.0 <==> p == 1.0 && y == 1.0) by {
      RightFactor(p, w, c, m, x, y);
    }
    assert x < 1.0 by {
      LowerRange(p, w, c, m, x);
    }
    FactorSigns(1.0 + w, g, right, y - x);
  }

  lemma RightFactor(p: real, w: real, c: real, m: real, x: real, y: real)
    requires IsLower(p, w, c, m, x) && y <= p
    ensures (1.0 + w) * y - c - m <= 0.0
    ensures (1.0 + w) * y - c - m == 0.0 <==> p == 1.0 && y == 1.0
  {
    MarginBounds(p, w, c, m, x);
    var d := 1.0 + w;
    Signs(p - y, d);
    Signs(w, 1.0 - p);
    assert d * y == d * p - (p - y) * d;
    assert d * p == p + w - w * (1.0 - p);
    assert d * y - c - m == (w / 2.0 - m) - w * (1.0 - p) - (p - y) * d;
  }

  // ---- the score ----

  /** A memory with `positive` good ratings out of `n`, and the root it needs. */
  predicate Scored(positive: int, n: int, z: real, root: real) {
    0 <= positive <= n && n > 0 && z > 0.0 && IsSqrt(root, Radicand(positive, n, z))
  }

  /** `positive` lies exactly `z` standard deviations from what a true rate `y`
      would give in `n` ratings. */
  predicate Balances(positive: int, n: int, z: real, y: real) {
    (positive as real - n as real * y) * (positive as real - n as real * y)
    == z * z * n as real * y * (1.0 - y)
  }

  function P(positive: int, n: int): real requires n > 0 { positive as real / n as real }
  function W(n: int, z: real): real requires n > 0 { z * z / n as real }

  /** The distance from balance, in counts. */
  function Excess(k: real, n: real, z: real, y: real): real {
    (k - n * y) * (k - n * y) - z * z * n * y * (1.0 - y)
  }

  lemma ExcessIsScaledGap(k: real, n: real, z: real, p: real, w: real, y: real)
    requires p * n == k && w * n == z * z
    ensures Excess(k, n, z, y) == (n * n) * Gap(p, w, y)
  {
    assert k - n * y == n * (p - y);
    assert z * z * n * y * (1.0 - y) == (n * n) * (w * y * (1.0 - y));
    assert (k - n * y) * (k - n * y) == (n * n) * ((p - y) * (p - y));
  }

  lemma ScaleKeepsSign(s: real, g: real, e: real)
    requires s > 0.0 && e == s * g
    ensures (e > 0.0 <==> g > 0.0) && (e < 0.0 <==> g < 0.0) && (e == 0.0 <==> g == 0.0)
  {
  }

  lemma Proportions(positive: int, n: int, z: real)
    requires n > 0
    ensures P(positive, n) * n as real == positive as real
    ensures W(n, z) * n as real == z * z
  {
  }

  lemma ProportionRange(p: real, k: real, n: real)
    requires n > 0.0 && p * n == k && 0.0 <= k <= n
    ensures 0.0 <= p <= 1.0
    ensures (p == 0.0 <==> k == 0.0) && (p == 1.0 <==> k == n)
  {
    ScaleKeepsSign(n, p, k);
    ScaleKeepsSign(n, 1.0 - p, n - k);
  }

  lemma GapScales(positive: int, n: int, z: real, y: real)
    requires n > 0
    ensures Balances(positive, n, z, y) <==> Gap(P(positive, n), W(n, z), y) == 0.0
    ensures var e := Excess(positive as real, n as real, z, y);
      && (e > 0.0 <==> Gap(P(positive, n), W(n, z), y) > 0.0)
      && (e < 0.0 <==> Gap(P(positive, n), W(n, z), y) < 0.0)
  {
    var nr := n as real;
    Proportions(positive, n, z);
    ExcessIsScaledGap(positive as real, nr, z, P(positive, n), W(n, z), y);
    ScaleKeepsSign(nr * nr, Gap(P(positive, n), W(n, z), y), Excess(positive as real, nr, z, y));
  }

  lemma RadicandScales(positive: int, n: int, z: real)
    requires n > 0
    ensures Radicand(positive, n, z) * n as real == P(positive, n) * (1.0 - P(positive, n)) + W(n, z) / 4.0
  {
    var p, nr := P(positive, n), n as real;
    assert p * (1.0 - p) / nr * nr == p * (1.0 - p);
    assert z * z / (4.0 * nr * nr) * nr == W(n, z) / 4.0;
  }

  lemma MarginSquare(p: real, w: real, n: real, z: real, root: real)
    requires w * n == z * z && (root * root) * n == p * (1.0 - p) + w / 4.0
    ensures (z * root) * (z * root) == w * p * (1.0 - p) + w * w / 4.0
  {
    assert (z * root) * (z * root) == (z * z) * (root * root);
    assert (w * n) * (root * root) == w * ((root * root) * n);
  }

  lemma HalfWidth(n: int, z: real)
    requires n > 0
    ensures z * z / (2.0 * n as real) == W(n, z) / 2.0
  {
  }

  lemma Quotient(a: real, d: real)
    requires d > 0.0
    ensures d * (a / d) == a
    ensures a / d >= 0.0 <==> a >= 0.0
  {
    ScaleKeepsSign(d, a / d, a);
  }

  /** The program never takes the root of a negative number. */
  lemma RadicandIsNonNegative(positive: int, n: int, z: real)
    requires 0 <= positive <= n && n > 0
    ensures Radicand(positive, n, z) >= 0.0
  {
    var p, w, nr := P(positive, n), W(n, z), n as real;
    RadicandScales(positive, n, z);
    Proportions(positive, n, z);
    ProportionRange(p, positive as real, nr);
    Signs(p, 1.0 - p);
    Signs(z, z);
    Signs(-z, -z);
    ScaleKeepsSign(nr, w, z * z);
    ScaleKeepsSign(nr, Radicand(positive, n, z), p * (1.0 - p) + w / 4.0);
  }

  lemma FormLower(p: real, w: real, n: real, z: real, root: real)
    requires 0.0 <= p <= 1.0 && n > 0.0 && z > 0.0 && root >= 0.0
    requires w * n == z * z && (root * root) * n == p * (1.0 - p) + w / 4.0
    ensures w > 0.0
    ensures IsLower(p, w, p + w / 2.0, z * root, (p + w / 2.0 - z * root) / (1.0 + w))
  {
    MarginSquare(p, w, n, z, root);
    Signs(z, z);
    ScaleKeepsSign(n, w, z * z);
    Signs(z, root);
    Quotient(p + w / 2.0 - z * root, 1.0 + w);
  }

  lemma PIsProportion(positive: int, n: int)
    requires n > 0 && 0 <= positive <= n
    ensures 0.0 <= P(positive, n) <= 1.0
    ensures (P(positive, n) == 0.0 <==> positive == 0) && (P(positive, n) == 1.0 <==> positive == n)
  {
    Proportions(positive, n, 0.0);
    ProportionRange(P(positive, n), positive as real, n as real);
  }

  /** The program's expression is the smaller solution of the quadratic, except for
      the cut-off at 0. */
  lemma UncutIsLower(positive: int, n: int, z: real, root: real)
    requires Scored(positive, n, z, root)
    ensures W(n, z) > 0.0
    ensures var p, w, c := P(positive, n), W(n, z), P(positive, n) + W(n, z) / 2.0;
      IsLower(p, w, c, z * root, (c - z * root) / (1.0 + w))
  {
    RadicandScales(positive, n, z);
    assert W(n, z) * n as real == z * z by {
      Proportions(positive, n, z);
    }
    PIsProportion(positive, n);
    FormLower(P(positive, n), W(n, z), n as real, z, root);
  }

  lemma ScoreIsLower(positive: int, n: int, z: real, root: real)
    requires Scored(positive, n, z, root)
    ensures IsLower(P(positive, n), W(n, z), P(positive, n) + W(n, z) / 2.0, z * root, LowerBound(positive, n, z, root))
  {
    var p, w := P(positive, n), W(n, z);
    UncutIsLower(positive, n, z, root);
    HalfWidth(n, z);
    LowerRange(p, w, p + w / 2.0, z * root, (p + w / 2.0 - z * root) / (1.0 + w));
  }

  /** Below the observed proportion, the sign of the excess tells on which side of
      the score a rate lies. */
  lemma CompareWithScore(positive: int, n: int, z: real, root: real, y: real)
    requires Scored(positive, n, z, root) && y <= P(positive, n)
    ensures Excess(positive as real, n as real, z, y) > 0.0 <==> y < LowerBound(positive, n, z, root)
    ensures Excess(positive as real, n as real, z, y) < 0.0 ==> LowerBound(positive, n, z, root) < y
    ensures Balances(positive, n, z, y) <==> y == LowerBound(positive, n, z, root) || (positive == n && y == 1.0)
  {
    var p, w := P(positive, n), W(n, z);
    ScoreIsLower(positive, n, z, root);
    GapSign(p, w, p + w / 2.0, z * root, LowerBound(positive, n, z, root), y);
    GapScales(positive, n, z, y);
    PIsProportion(positive, n);
  }

  lemma ScoreRange(positive: int, n: int, z: real, root: real)
    requires Scored(positive, n, z, root)
    ensures var x := LowerBound(positive, n, z, root);
      0.0 <= x <= P(positive, n) <= 1.0 && x < 1.0 && (x == 0.0 <==> positive == 0)
  {
    var p, w := P(positive, n), W(n, z);
    PIsProportion(positive, n);
    assert IsLower(p, w, p + w / 2.0, z * root, LowerBound(positive, n, z, root)) by {
      ScoreIsLower(positive, n, z, root);
    }
    LowerRange(p, w, p + w / 2.0, z * root, LowerBound(positive, n, z, root));
  }

  /** The score is the smallest rate that balances the ratings. It lies between 0
      and the observed proportion, is 0 exactly without positive ratings, and the
      cut-off at 0 never acts. */
  lemma ScoreBalances(positive: int, n: int, z: real, root: real)
    requires Scored(positive, n, z, root)
    ensures var x := LowerBound(positive, n, z, root);
      && Balances(positive, n, z, x)
      && 0.0 <= x <= P(positive, n) && x < 1.0
      && (x == 0.0 <==> positive == 0)
      && (forall y :: 0.0 <= y <= P(positive, n) && Balances(positive, n, z, y) ==> x <= y)
  {
    var x := LowerBound(positive, n, z, root);
    ScoreRange(positive, n, z, root);
    CompareWithScore(positive, n, z, root, x);
    forall y | 0.0 <= y <= P(positive, n) && Balances(positive, n, z, y) ensures x <= y {
      CompareWithScore(positive, n, z, root, y);
    }
  }

  /** It is the only balancing rate up to the observed proportion exactly when some
      rating was not positive: a perfect record is also balanced by 1. */
  lemma UniqueUnlessPerfect(positive: int, n: int, z: real, root: real)
    requires Scored(positive, n, z, root)
    ensures var x := LowerBound(positive, n, z, root);
      (forall y :: 0.0 <= y <= P(positive, n) && Balances(positive, n, z, y) ==> y == x) <==> positive < n
  {
    var x := LowerBound(positive, n, z, root);
    ScoreRange(positive, n, z, root);
    if positive < n {
      forall y | 0.0 <= y <= P(positive, n) && Balances(positive, n, z, y) ensures y == x {
        CompareWithScore(positive, n, z, root, y);
      }
    } else {
      PIsProportion(positive, n);
      CompareWithScore(positive, n, z, root, 1.0);
    }
  }

  // ---- one more rating ----

  /** With `x` balancing `k` of `n` and `d = k - n x`, the excess of other counts
      at `x` only has terms in `d` and `x`. */
  lemma ExcessOfMore(k: real, n: real, z: real, x: real)
    requires Excess(k, n, z, x) == 0.0
    ensures Excess(k + 1.0, n + 1.0, z, x) == (1.0 - x) * (2.0 * (k - n * x) + (1.0 - x) - z * z * x)
    ensures Excess(k, n + 1.0, z, x) == x * (x - 2.0 * (k - n * x) - z * z * (1.0 - x))
  {
    var d := k - n * x;
    var q := z * z;
    assert (k + 1.0) - (n + 1.0) * x == d + (1.0 - x);
    assert k - (n + 1.0) * x == d - x;
    assert z * z * (n + 1.0) * x * (1.0 - x) == q * n * x * (1.0 - x) + (1.0 - x) * (q * x);
    assert q * n * x * (1.0 - x) == d * d;
    assert (d + (1.0 - x)) * (d + (1.0 - x)) == d * d + (1.0 - x) * (2.0 * d + (1.0 - x));
    assert (d - x) * (d - x) == d * d + x * (x - 2.0 * d);
    assert (1.0 - x) * (2.0 * d + (1.0 - x)) - (1.0 - x) * (q * x) == (1.0 - x) * (2.0 * d + (1.0 - x) - q * x);
    assert x * (x - 2.0 * d) - (1.0 - x) * (q * x) == x * (x - 2.0 * d - q * (1.0 - x));
  }

  /** The pull of the interval at the score is at most the surplus of positives. */
  lemma PullAtMostSurplus(k: real, n: real, z: real, x: real)
    requires Excess(k, n, z, x) == 0.0 && 0.0 <= x < 1.0 && n > 0.0
    requires 0.0 <= k - n * x <= n * (1.0 - x)
    ensures z * z * x <= k - n * x
  {
    var d, m := k - n * x, n * (1.0 - x);
    assert d * d == (z * z * x) * m;
    Signs(n, 1.0 - x);
    if z * z * x > d {
      Signs(z * z * x - d, m);
      assert (z * z * x - d) * m == d * d - d * m;
      assert d * d - d * m == d * (d - m);
      Signs(d, m - d);
    }
  }

  /** What holds of the score `x` of `k` positive ratings out of `n`. */
  predicate AtBalance(k: real, n: real, z: real, x: real) {
    n > 0.0 && Excess(k, n, z, x) == 0.0 && 0.0 <= x < 1.0 && 0.0 <= k - n * x <= n * (1.0 - x)
  }

  lemma SurplusRange(k: real, n: real, p: real, x: real)
    requires n > 0.0 && p * n == k && x <= p <= 1.0
    ensures 0.0 <= k - n * x <= n * (1.0 - x)
  {
    Signs(n, p - x);
    Signs(n, 1.0 - p);
    assert n * (p - x) == k - n * x;
    assert n * (1.0 - p) == n * (1.0 - x) - (k - n * x);
  }

  lemma ScoreAtBalance(positive: int, n: int, z: real, root: real)
    requires Scored(positive, n, z, root)
    ensures AtBalance(positive as real, n as real, z, LowerBound(positive, n, z, root))
  {
    var x := LowerBound(positive, n, z, root);
    ScoreRange(positive, n, z, root);
    CompareWithScore(positive, n, z, root, x);
    Proportions(positive, n, z);
    SurplusRange(positive as real, n as real, P(positive, n), x);
  }

  lemma BelowProportion(positive: int, n: int, x: real)
    requires n > 0
    ensures x <= P(positive, n) <==> n as real * x <= positive as real
  {
    Proportions(positive, n, 0.0);
    assert n as real * (P(positive, n) - x) == positive as real - n as real * x;
    ScaleKeepsSign(n as real, P(positive, n) - x, positive as real - n as real * x);
  }

  lemma ExcessRises(k: real, n: real, k1: real, n1: real, z: real, x: real)
    requires AtBalance(k, n, z, x) && k1 == k + 1.0 && n1 == n + 1.0
    ensures Excess(k1, n1, z, x) > 0.0
    ensures n1 * x <= k1
  {
    ExcessOfMore(k, n, z, x);
    PullAtMostSurplus(k, n, z, x);
    Signs(1.0 - x, 2.0 * (k - n * x) + (1.0 - x) - z * z * x);
  }

  lemma ExcessFalls(k: real, n: real, n1: real, z: real, x: real)
    requires AtBalance(k, n, z, x) && n1 == n + 1.0 && x > 0.0 && n1 * x <= k
    ensures Excess(k, n1, z, x) < 0.0
  {
    ExcessOfMore(k, n, z, x);
    Signs(z, z);
    Signs(-z, -z);
    Signs(z * z, 1.0 - x);
    ScaleKeepsSign(x, x - 2.0 * (k - n * x) - z * z * (1.0 - x), Excess(k, n1, z, x));
  }

  /** `Scored` can be met: counts whose roots are rational, a first rating and a second
      one either way. */
  lemma ScoredExamples()
    ensures Scored(0, 1, 0.5, 0.25) && Scored(1, 1, 0.5, 0.25) && Scored(1, 2, 0.5, 0.375)
  {
  }

  lemma ExcessOfNext(positive: int, n: int, z: real, root: real)
    requires Scored(positive, n, z, root)
    ensures Excess((positive + 1) as real, (n + 1) as real, z, LowerBound(positive, n, z, root)) > 0.0
    ensures (n + 1) as real * LowerBound(positive, n, z, root) <= (positive + 1) as real
  {
    var x := LowerBound(positive, n, z, root);
    ScoreAtBalance(positive, n, z, root);
    ExcessRises(positive as real, n as real, (positive + 1) as real, (n + 1) as real, z, x);
  }

  lemma BelowNextProportion(positive: int, n: int, z: real, root: real)
    requires Scored(positive, n, z, root)
    ensures LowerBound(positive, n, z, root) <= P(positive + 1, n + 1)
  {
    ExcessOfNext(positive, n, z, root);
    BelowProportion(positive + 1, n + 1, LowerBound(positive, n, z, root));
  }

  /** A rate with a positive excess lies below the score. */
  lemma ExcessIsBelow(positive: int, n: int, z: real, root: real, y: real)
    requires Scored(positive, n, z, root) && y <= P(positive, n)
    requires Excess(positive as real, n as real, z, y) > 0.0
    ensures y < LowerBound(positive, n, z, root)
  {
    CompareWithScore(positive, n, z, root, y);
  }

  /** One more positive rating strictly raises the score. */
  lemma MorePositive(positive: int, n: int, z: real, root: real, nextRoot: real)
    requires Scored(positive, n, z, root) && Scored(positive + 1, n + 1, z, nextRoot)
    ensures LowerBound(positive, n, z, root) < LowerBound(positive + 1, n + 1, z, nextRoot)
  {
    ExcessOfNext(positive, n, z, root);
    BelowNextProportion(positive, n, z, root);
    ExcessIsBelow(positive + 1, n + 1, z, nextRoot, LowerBound(positive, n, z, root));
  }

  lemma FallsWhenBelow(positive: int, n: int, z: real, root: real, nextRoot: real)
    requires Scored(positive, n, z, root) && Scored(positive, n + 1, z, nextRoot) && positive > 0
    requires LowerBound(positive, n, z, root) <= P(positive, n + 1)
    ensures LowerBound(positive, n + 1, z, nextRoot) < LowerBound(positive, n, z, root)
  {
    var x := LowerBound(positive, n, z, root);
    var k, n1 := positive as real, (n + 1) as real;
    assert n1 * x <= k by {
      BelowProportion(positive, n + 1, x);
    }
    assert x > 0.0 by {
      ScoreRange(positive, n, z, root);
    }
    assert Excess(k, n1, z, x) < 0.0 by {
      ScoreAtBalance(positive, n, z, root);
      ExcessFalls(k, n as real, n1, z, x);
    }
    CompareWithScore(positive, n + 1, z, nextRoot, x);
  }

  /** One more rating that was not positive strictly lowers a score above 0. */
  lemma MoreIgnored(positive: int, n: int, z: real, root: real, nextRoot: real)
    requires Scored(positive, n, z, root) && Scored(positive, n + 1, z, nextRoot) && positive > 0
    ensures LowerBound(positive, n + 1, z, nextRoot) < LowerBound(positive, n, z, root)
  {
    if LowerBound(positive, n, z, root) <= P(positive, n + 1) {
      FallsWhenBelow(positive, n, z, root, nextRoot);
    } else {
      ScoreRange(positive, n + 1, z, nextRoot);
    }
  }
}
