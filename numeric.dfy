/** Sums, products, maxima and minima over lists of reals, the building
    blocks every ranking routine uses, together with the facts about them
    that the ranking proofs rely on. */
module Numeric {

  /** A rectangular grid with `rows` rows of `cols` values each. */
  predicate IsMatrix(m: seq<seq<real>>, rows: nat, cols: nat)
  {
    |m| == rows && forall i :: 0 <= i < rows ==> |m[i]| == cols
  }

  /** Column `j` of a matrix, as the list `[m[i][j] for i in range(len(m))]`. */
  function Column(m: seq<seq<real>>, j: nat): (c: seq<real>)
    requires forall i :: 0 <= i < |m| ==> j < |m[i]|
    ensures |c| == |m| && forall i :: 0 <= i < |m| ==> c[i] == m[i][j]
  {
    seq(|m|, i requires 0 <= i < |m| => m[i][j])
  }

  /** Python's `sum`, folded from the left. */
  function Sum(s: seq<real>): real
  {
    if |s| == 0 then 0.0 else Sum(s[..|s| - 1]) + s[|s| - 1]
  }

  /** The running product `s = 1; s *= x` over a list. */
  function Product(s: seq<real>): real
  {
    if |s| == 0 then 1.0 else Product(s[..|s| - 1]) * s[|s| - 1]
  }

  /** The terms w_j * x_j of a weighted sum. */
  function WeightedTerms(weights: seq<real>, row: seq<real>): (t: seq<real>)
    requires |row| == |weights|
    ensures |t| == |weights| && forall j :: 0 <= j < |weights| ==> t[j] == weights[j] * row[j]
  {
    seq(|weights|, j requires 0 <= j < |weights| => weights[j] * row[j])
  }

  /** Σ_j w_j * x_j. */
  function WeightedSum(weights: seq<real>, row: seq<real>): real
    requires |row| == |weights|
  {
    Sum(WeightedTerms(weights, row))
  }

  /** Python's `max` over a non-empty list: an upper bound that occurs in it. */
  function Max(s: seq<real>): (m: real)
    requires |s| > 0
    ensures forall i :: 0 <= i < |s| ==> s[i] <= m
    ensures exists i :: 0 <= i < |s| && s[i] == m
  {
    if |s| == 1 then s[0]
    else
      var m' := Max(s[..|s| - 1]);
      assert forall i :: 0 <= i < |s| - 1 ==> s[..|s| - 1][i] == s[i];
      if s[|s| - 1] > m' then s[|s| - 1] else m'
  }

  /** Python's `min` over a non-empty list: a lower bound that occurs in it. */
  function Min(s: seq<real>): (m: real)
    requires |s| > 0
    ensures forall i :: 0 <= i < |s| ==> m <= s[i]
    ensures exists i :: 0 <= i < |s| && s[i] == m
  {
    if |s| == 1 then s[0]
    else
      var m' := Min(s[..|s| - 1]);
      assert forall i :: 0 <= i < |s| - 1 ==> s[..|s| - 1][i] == s[i];
      if s[|s| - 1] < m' then s[|s| - 1] else m'
  }

  /** A value between zero and a positive bound, divided by the bound, lies in [0, 1]. */
  lemma RatioInUnitInterval(x: real, y: real)
    requires 0.0 <= x <= y && y > 0.0
    ensures 0.0 <= x / y <= 1.0
  {
    assert x / y * y == x;
  }

  /** The ratio of two positive values is positive. */
  lemma RatioPositive(a: real, b: real)
    requires a > 0.0 && b > 0.0
    ensures a / b > 0.0
  {
  }

  /** A positive value times its reciprocal is one, in either order. */
  lemma ReciprocalProduct(x: real)
    requires x > 0.0
    ensures x * (1.0 / x) == 1.0 && (1.0 / x) * x == 1.0
  {
  }

  /** A positive value divided by itself is one. */
  lemma SelfRatio(x: real)
    requires x > 0.0
    ensures x / x == 1.0
  {
  }

  /** Dividing two ratios with the same positive denominator cancels it. */
  lemma RatioOfRatios(a: real, b: real, c: real)
    requires b > 0.0 && c > 0.0
    ensures (a / b) / (c / b) == a / c
  {
    assert (a / b) / (c / b) * (c / b) == a / b;
    assert a / c * (c / b) == a / b;
  }

  /** (b / c) * (a / b) == a / c for positive b and c. */
  lemma ShareTimesRatio(x: real, y: real, a: real, b: real, c: real)
    requires b > 0.0 && c > 0.0
    requires x == b / c && y == a / b
    ensures x * y == a / c
  {
  }

  /** y². Facts about squares are stated on this function rather than on raw
      products, which keeps the solver's arithmetic linear at the call sites. */
  function Square(y: real): real
  {
    y * y
  }

  /** The square of a positive value is positive. */
  lemma PositiveSquare(y: real)
    requires y > 0.0
    ensures Square(y) > 0.0
  {
    calc {
      Square(y);
      y * y;
    >
      0.0 * y;
    ==
      0.0;
    }
  }

  /** A square is non-negative, and zero exactly at zero. */
  lemma SquareSign(y: real)
    ensures Square(y) >= 0.0
    ensures Square(y) == 0.0 <==> y == 0.0
  {
    if y > 0.0 {
      PositiveSquare(y);
    } else if y < 0.0 {
      PositiveSquare(-y);
      calc {
        Square(y);
        y * y;
        (-y) * (-y);
        Square(-y);
      >
        0.0;
      }
    } else {
      calc {
        Square(y);
        0.0 * 0.0;
        0.0;
      }
    }
  }

  /** Squaring is strictly increasing on non-negative values. */
  lemma SquareIncreasing(a: real, b: real)
    requires 0.0 <= a < b
    ensures Square(a) < Square(b)
  {
    calc {
      Square(a);
      a * a;
    <=
      a * b;
    <
      b * b;
      Square(b);
    }
  }

  /** (x / d)² = x² / d². */
  lemma SquareOfRatio(x: real, d: real)
    requires d != 0.0
    ensures Square(d) != 0.0
    ensures Square(x / d) == Square(x) / Square(d)
  {
    SquareSign(d);
    var y := x / d;
    calc {
      Square(x);
      (y * d) * (y * d);
      Square(y) * Square(d);
    }
    calc {
      Square(x) / Square(d);
      (Square(y) * Square(d)) / Square(d);
      Square(y);
    }
  }

  /** A non-negative w times a fraction in [0, 1] lies in [0, w]. */
  lemma ScaledFraction(w: real, x: real, t: real)
    requires w >= 0.0 && 0.0 <= x <= 1.0 && t == w * x
    ensures 0.0 <= t <= w
  {
    assert w * (1.0 - x) >= 0.0;
  }

  /** Non-negative weights applied to values in [0, 1] give a weighted sum
      between 0 and the total weight. */
  lemma WeightedSumOfFractions(weights: seq<real>, row: seq<real>)
    requires |row| == |weights|
    requires forall j :: 0 <= j < |weights| ==> weights[j] >= 0.0 && 0.0 <= row[j] <= 1.0
    ensures 0.0 <= WeightedSum(weights, row) <= Sum(weights)
  {
    var terms := WeightedTerms(weights, row);
    TermsOfFractions(weights, row);
    SumNonNegative(terms);
    SumLe(terms, weights);
  }

  /** Each term w_j * x_j with w_j >= 0 and x_j in [0, 1] lies in [0, w_j]. */
  lemma TermsOfFractions(weights: seq<real>, row: seq<real>)
    requires |row| == |weights|
    requires forall j :: 0 <= j < |weights| ==> weights[j] >= 0.0 && 0.0 <= row[j] <= 1.0
    ensures forall j :: 0 <= j < |weights| ==> 0.0 <= WeightedTerms(weights, row)[j] <= weights[j]
  {
    var terms := WeightedTerms(weights, row);
    forall j | 0 <= j < |weights|
      ensures 0.0 <= terms[j] <= weights[j]
    {
      ScaledFraction(weights[j], row[j], terms[j]);
    }
  }

  /** A quotient times its divisor gives the dividend back. */
  lemma QuotientTimes(x: real, n: real)
    requires n != 0.0
    ensures (x / n) * n == x
  {
  }

  /** n copies of x, divided by n, give x back. */
  lemma CancelCount(n: real, x: real)
    requires n > 0.0
    ensures (n * x) / n == x
    ensures x != 0.0 ==> (n * x) / x == n
  {
  }

  /** The average of a non-empty list of equal values is that value. */
  lemma AverageOfConstant(s: seq<real>, x: real)
    requires |s| > 0
    requires forall i :: 0 <= i < |s| ==> s[i] == x
    ensures Sum(s) / |s| as real == x
  {
    SumConstant(s, x);
    CancelCount(|s| as real, x);
  }

  /** A list of equal non-zero values, summed and divided by one of them, gives its length. */
  lemma ConstantSumOverTerm(s: seq<real>, x: real)
    requires x != 0.0
    requires forall i :: 0 <= i < |s| ==> s[i] == x
    ensures Sum(s) / x == |s| as real
  {
    SumConstant(s, x);
    assert Sum(s) == |s| as real * x;
  }

  /** The average of a non-empty list lies between its minimum and its maximum. */
  lemma AverageBetween(s: seq<real>)
    requires |s| > 0
    ensures Min(s) <= Sum(s) / |s| as real <= Max(s)
  {
    AverageWithin(s, Min(s), Max(s));
  }

  /** The average of a non-empty list whose terms lie in [lo, hi] lies in [lo, hi]. */
  lemma AverageWithin(s: seq<real>, lo: real, hi: real)
    requires |s| > 0
    requires forall i :: 0 <= i < |s| ==> lo <= s[i] <= hi
    ensures lo <= Sum(s) / |s| as real <= hi
  {
    SumBetween(s, lo, hi);
    QuotientBetween(lo, Sum(s), hi, |s| as real);
  }

  /** A sum of |s| terms, each between lo and hi, lies between |s| * lo and |s| * hi. */
  lemma {:induction false} SumBetween(s: seq<real>, lo: real, hi: real)
    requires forall i :: 0 <= i < |s| ==> lo <= s[i] <= hi
    ensures |s| as real * lo <= Sum(s) <= |s| as real * hi
  {
    if |s| > 0 {
      var k := |s| - 1;
      SumBetween(s[..k], lo, hi);
      assert |s| as real * lo == k as real * lo + lo;
      assert |s| as real * hi == k as real * hi + hi;
    }
  }

  /** From n * lo <= x <= n * hi with n > 0 follows lo <= x / n <= hi. */
  lemma QuotientBetween(lo: real, x: real, hi: real, n: real)
    requires n > 0.0 && n * lo <= x <= n * hi
    ensures lo <= x / n <= hi
  {
    var q := x / n;
    assert x == n * q;
    assert n * (q - lo) >= 0.0;
    assert n * (hi - q) >= 0.0;
  }

  /** The average of a non-empty list of values in (0, 1] lies in (0, 1]. */
  lemma AverageInUnitInterval(s: seq<real>)
    requires |s| > 0
    requires forall i :: 0 <= i < |s| ==> 0.0 < s[i] <= 1.0
    ensures 0.0 < Sum(s) / |s| as real <= 1.0
  {
    var ones := seq(|s|, _ => 1.0);
    SumPositive(s);
    SumLe(s, ones);
    SumConstant(ones, 1.0);
    RatioInUnitInterval(Sum(s), |s| as real);
  }

  /** When w_j = v_j / t and x_j = v_i / v_j, every term w_j * x_j is v_i / t. */
  lemma SharesTimesRatios(w: seq<real>, x: seq<real>, v: seq<real>, i: nat, t: real)
    requires |w| == |x| == |v| && i < |v| && t > 0.0
    requires forall j :: 0 <= j < |v| ==> v[j] > 0.0
    requires forall j :: 0 <= j < |v| ==> w[j] == v[j] / t
    requires forall j :: 0 <= j < |v| ==> x[j] == v[i] / v[j]
    ensures forall j :: 0 <= j < |v| ==> WeightedTerms(w, x)[j] == v[i] / t
  {
    forall j | 0 <= j < |v|
      ensures WeightedTerms(w, x)[j] == v[i] / t
    {
      ShareTimesRatio(w[j], x[j], v[i], v[j], t);
    }
  }

  /** The accumulator of a left-to-right summing loop grows by one term per step. */
  lemma SumStep(s: seq<real>, k: nat)
    requires k < |s|
    ensures Sum(s[..k + 1]) == Sum(s[..k]) + s[k]
  {
    assert s[..k + 1][..k] == s[..k];
  }

  /** The product analogue of SumStep. */
  lemma ProductStep(s: seq<real>, k: nat)
    requires k < |s|
    ensures Product(s[..k + 1]) == Product(s[..k]) * s[k]
  {
    assert s[..k + 1][..k] == s[..k];
  }

  /** Summing is monotone in every term. */
  lemma {:induction false} SumLe(a: seq<real>, b: seq<real>)
    requires |a| == |b|
    requires forall i :: 0 <= i < |a| ==> a[i] <= b[i]
    ensures Sum(a) <= Sum(b)
  {
    if |a| > 0 {
      SumLe(a[..|a| - 1], b[..|b| - 1]);
    }
  }

  /** A sum of non-negative terms is non-negative. */
  lemma {:induction false} SumNonNegative(s: seq<real>)
    requires forall i :: 0 <= i < |s| ==> s[i] >= 0.0
    ensures Sum(s) >= 0.0
  {
    if |s| > 0 {
      SumNonNegative(s[..|s| - 1]);
    }
  }

  /** A non-empty sum of positive terms is positive. */
  lemma {:induction false} SumPositive(s: seq<real>)
    requires |s| > 0
    requires forall i :: 0 <= i < |s| ==> s[i] > 0.0
    ensures Sum(s) > 0.0
  {
    if |s| > 1 {
      SumPositive(s[..|s| - 1]);
    }
  }

  /** With non-negative terms, every term is at most the sum. */
  lemma {:induction false} TermAtMostSum(s: seq<real>, k: nat)
    requires k < |s|
    requires forall i :: 0 <= i < |s| ==> s[i] >= 0.0
    ensures s[k] <= Sum(s)
  {
    if k < |s| - 1 {
      TermAtMostSum(s[..|s| - 1], k);
    } else {
      SumNonNegative(s[..|s| - 1]);
    }
  }

  /** A constant factor moves out of a sum. */
  lemma {:induction false} SumScale(s: seq<real>, c: real, t: seq<real>)
    requires |t| == |s|
    requires forall i :: 0 <= i < |s| ==> t[i] == c * s[i]
    ensures Sum(t) == c * Sum(s)
  {
    if |s| > 0 {
      SumScale(s[..|s| - 1], c, t[..|t| - 1]);
    }
  }

  /** A common non-zero divisor moves out of a sum. */
  lemma {:induction false} SumDivide(s: seq<real>, d: real, t: seq<real>)
    requires d != 0.0 && |t| == |s|
    requires forall i :: 0 <= i < |s| ==> t[i] == s[i] / d
    ensures Sum(t) == Sum(s) / d
  {
    if |s| > 0 {
      SumDivide(s[..|s| - 1], d, t[..|t| - 1]);
    }
  }

  /** The sum of termwise sums is the sum of the sums. */
  lemma {:induction false} SumAdd(a: seq<real>, b: seq<real>, c: seq<real>)
    requires |a| == |b| == |c|
    requires forall i :: 0 <= i < |c| ==> c[i] == a[i] + b[i]
    ensures Sum(c) == Sum(a) + Sum(b)
  {
    if |c| > 0 {
      SumAdd(a[..|a| - 1], b[..|b| - 1], c[..|c| - 1]);
    }
  }

  /** n copies of c sum to n * c. */
  lemma {:induction false} SumConstant(s: seq<real>, c: real)
    requires forall i :: 0 <= i < |s| ==> s[i] == c
    ensures Sum(s) == |s| as real * c
  {
    if |s| > 0 {
      SumConstant(s[..|s| - 1], c);
    }
  }

  /** Sums that agree termwise are equal. */
  lemma SumExt(a: seq<real>, b: seq<real>)
    requires |a| == |b|
    requires forall i :: 0 <= i < |a| ==> a[i] == b[i]
    ensures Sum(a) == Sum(b)
  {
    assert a == b;
  }

  /** Row sums of a matrix, each row summed. */
  function RowSums(m: seq<seq<real>>): (r: seq<real>)
    ensures |r| == |m| && forall i :: 0 <= i < |m| ==> r[i] == Sum(m[i])
  {
    seq(|m|, i requires 0 <= i < |m| => Sum(m[i]))
  }

  /** Column sums of a matrix with `cols` columns. */
  function ColumnSums(m: seq<seq<real>>, cols: nat): (r: seq<real>)
    requires forall i :: 0 <= i < |m| ==> |m[i]| == cols
    ensures |r| == cols && forall j :: 0 <= j < cols ==> r[j] == Sum(Column(m, j))
  {
    seq(cols, j requires 0 <= j < cols => Sum(Column(m, j)))
  }

  /** Summing a matrix row by row or column by column gives the same total. */
  lemma {:induction false} SumExchange(m: seq<seq<real>>, cols: nat)
    requires IsMatrix(m, |m|, cols)
    ensures Sum(RowSums(m)) == Sum(ColumnSums(m, cols))
  {
    if |m| == 0 {
      SumConstant(ColumnSums(m, cols), 0.0);
    } else {
      var k := |m| - 1;
      var top := m[..k];
      var rows, columns, topColumns := RowSums(m), ColumnSums(m, cols), ColumnSums(top, cols);
      SumExchange(top, cols);
      assert rows[..k] == RowSums(top);
      assert Sum(rows) == Sum(RowSums(top)) + Sum(m[k]);
      ColumnSumsStep(m, cols);
      SumAdd(topColumns, m[k], columns);
    }
  }

  /** Adding a last row to a matrix adds that row to its column sums. */
  lemma ColumnSumsStep(m: seq<seq<real>>, cols: nat)
    requires |m| > 0 && IsMatrix(m, |m|, cols)
    ensures forall j :: 0 <= j < cols ==>
      ColumnSums(m, cols)[j] == ColumnSums(m[..|m| - 1], cols)[j] + m[|m| - 1][j]
  {
    var k := |m| - 1;
    forall j | 0 <= j < cols
      ensures ColumnSums(m, cols)[j] == ColumnSums(m[..k], cols)[j] + m[k][j]
    {
      assert Column(m, j)[..k] == Column(m[..k], j);
    }
  }

  /** A product of positive factors is positive. */
  lemma {:induction false} ProductPositive(s: seq<real>)
    requires forall i :: 0 <= i < |s| ==> s[i] > 0.0
    ensures Product(s) > 0.0
  {
    if |s| > 0 {
      ProductPositive(s[..|s| - 1]);
    }
  }

  /** The indices 0, 1, ..., n - 1. */
  function Indices(n: nat): (s: seq<nat>)
    ensures |s| == n && forall k :: 0 <= k < n ==> s[k] == k
  {
    seq(n, k requires 0 <= k < n => k)
  }

  /** pi lists each of the indices 0, 1, ..., n - 1 exactly once. */
  predicate IsPermutation(pi: seq<nat>, n: nat)
  {
    |pi| == n && (forall j :: 0 <= j < n ==> pi[j] < n) && multiset(pi) == multiset(Indices(n))
  }

  /** s read in the order pi: position j holds s[pi[j]]. */
  function Permute<T>(s: seq<T>, pi: seq<nat>): (r: seq<T>)
    requires forall j :: 0 <= j < |pi| ==> pi[j] < |s|
    ensures |r| == |pi| && forall j :: 0 <= j < |pi| ==> r[j] == s[pi[j]]
  {
    seq(|pi|, j requires 0 <= j < |pi| => s[pi[j]])
  }

  /** Every row of m read in the order pi: the columns of m reordered. */
  function PermuteColumns(m: seq<seq<real>>, rows: nat, cols: nat, pi: seq<nat>): (r: seq<seq<real>>)
    requires IsMatrix(m, rows, cols) && IsPermutation(pi, cols)
    ensures IsMatrix(r, rows, cols)
    ensures forall i, j :: 0 <= i < rows && 0 <= j < cols ==> r[i][j] == m[i][pi[j]]
  {
    seq(rows, i requires 0 <= i < rows => Permute(m[i], pi))
  }

  /** The sum of a concatenation is the sum of its parts. */
  lemma {:induction false} SumConcat(a: seq<real>, b: seq<real>)
    ensures Sum(a + b) == Sum(a) + Sum(b)
  {
    if |b| == 0 {
      assert a + b == a;
    } else {
      SumConcat(a, b[..|b| - 1]);
      assert (a + b)[..|a + b| - 1] == a + b[..|b| - 1];
    }
  }

  /** Taking element k out of a list lowers its sum by that element. */
  lemma SumWithout(p: seq<real>, k: nat)
    requires k < |p|
    ensures Sum(p) == Sum(p[..k] + p[k + 1..]) + p[k]
  {
    var front, back := p[..k + 1], p[k + 1..];
    assert p == front + back;
    SumConcat(front, back);
    SumStep(p, k);
    SumConcat(p[..k], back);
  }

  /** Taking element k out of a list takes one copy of it out of its multiset. */
  lemma MultisetWithout(s: seq<nat>, k: nat)
    requires k < |s|
    ensures multiset(s) == multiset(s[..k] + s[k + 1..]) + multiset{s[k]}
  {
    assert s == s[..k + 1] + s[k + 1..];
    assert s[..k + 1] == s[..k] + [s[k]];
  }

  /** One copy of x added to two multisets makes them equal only if they were. */
  lemma CancelOne(a: multiset<nat>, b: multiset<nat>, x: nat)
    requires a + multiset{x} == b + multiset{x}
    ensures a == b
  {
    assert a == (a + multiset{x}) - multiset{x};
    assert b == (b + multiset{x}) - multiset{x};
  }

  /** The multiset of 0..n is that of 0..n-1 with n added. */
  lemma IndicesStep(n: nat)
    ensures multiset(Indices(n + 1)) == multiset(Indices(n)) + multiset{n}
  {
    assert Indices(n + 1) == Indices(n) + [n];
  }

  /** Every value in a permutation of 0..n-1 is below n. */
  lemma BelowCount(s: seq<nat>, n: nat, x: nat)
    requires multiset(s) == multiset(Indices(n)) && x in multiset(s)
    ensures x < n
  {
    assert x in Indices(n);
  }

  /** Taking the largest index out of a permutation of 0..n-1 leaves a permutation of 0..n-2. */
  lemma PermutationWithoutLast(pi: seq<nat>, n: nat, k: nat)
    requires IsPermutation(pi, n) && k < n && pi[k] == n - 1
    ensures IsPermutation(pi[..k] + pi[k + 1..], n - 1)
  {
    var last := n - 1;
    var rest := pi[..k] + pi[k + 1..];
    MultisetWithout(pi, k);
    IndicesStep(last);
    CancelOne(multiset(rest), multiset(Indices(last)), last);
    forall j | 0 <= j < |rest|
      ensures rest[j] < last
    {
      BelowCount(rest, last, rest[j]);
    }
  }

  /** A permutation of 0..n-1 with n > 0 holds n - 1 somewhere. */
  lemma PositionOfLast(pi: seq<nat>, n: nat) returns (k: nat)
    requires IsPermutation(pi, n) && n > 0
    ensures k < n && pi[k] == n - 1
  {
    assert Indices(n)[n - 1] == n - 1;
    assert n - 1 in multiset(Indices(n));
    k :| 0 <= k < |pi| && pi[k] == n - 1;
  }

  /** Reading s in the order pi and dropping position k (where pi names the last
      element of s) is reading the rest of s in the order pi without k. */
  lemma PermuteWithoutLast(s: seq<real>, pi: seq<nat>, k: nat)
    requires |s| > 0 && IsPermutation(pi, |s|) && k < |pi| && pi[k] == |s| - 1
    requires IsPermutation(pi[..k] + pi[k + 1..], |s| - 1)
    ensures Permute(s[..|s| - 1], pi[..k] + pi[k + 1..]) == Permute(s, pi)[..k] + Permute(s, pi)[k + 1..]
  {
    var rest := pi[..k] + pi[k + 1..];
    var p := Permute(s, pi);
    var q := Permute(s[..|s| - 1], rest);
    var r := p[..k] + p[k + 1..];
    forall j | 0 <= j < |q|
      ensures q[j] == r[j]
    {
      if j < k {
        assert rest[j] == pi[j];
      } else {
        assert rest[j] == pi[j + 1];
      }
    }
    assert q == r;
  }

  /** Summing in another order gives the same total. */
  lemma {:induction false} SumPermute(s: seq<real>, pi: seq<nat>)
    requires IsPermutation(pi, |s|)
    ensures Sum(Permute(s, pi)) == Sum(s)
  {
    var n := |s|;
    if n > 0 {
      var last := n - 1;
      var k := PositionOfLast(pi, n);
      var front, rest, p := s[..last], pi[..k] + pi[k + 1..], Permute(s, pi);
      PermutationWithoutLast(pi, n, k);
      PermuteWithoutLast(s, pi, k);
      SumPermute(front, rest);
      SumWithout(p, k);
      assert Sum(p) == Sum(front) + s[last];
    }
  }
}
