/** TOPSIS: each column is divided by its Euclidean norm, scaled by its
    weight, the positive and negative ideal solutions are taken column by
    column, every alternative's Euclidean distances to both ideals are
    measured, and its preference is its relative closeness D⁻ / (D⁺ + D⁻). */
module Topsis {
  import opened Numeric
  import opened Decision

  /** What the model assumes of the floating-point `x ** 0.5` it is given:
      on a non-negative argument it returns the non-negative square root. */
  ghost predicate IsSqrt(sqrt: real -> real)
  {
    forall x :: x >= 0.0 ==> sqrt(x) >= 0.0 && Square(sqrt(x)) == x
  }

  /** The squares of a list of values. */
  function Squares(s: seq<real>): (q: seq<real>)
    ensures |q| == |s| && forall i :: 0 <= i < |s| ==> q[i] == Square(s[i])
  {
    seq(|s|, i requires 0 <= i < |s| => Square(s[i]))
  }

  /** Squares are non-negative. */
  lemma SquaresNonNegative(s: seq<real>)
    ensures forall i :: 0 <= i < |s| ==> Squares(s)[i] >= 0.0
  {
    forall i | 0 <= i < |s|
      ensures Squares(s)[i] >= 0.0
    {
      SquareSign(s[i]);
    }
  }

  /** The divisor of column j: the square root of its sum of squares. */
  function Divisor(data: seq<seq<real>>, j: nat, sqrt: real -> real): real
    requires forall i :: 0 <= i < |data| ==> j < |data[i]|
  {
    sqrt(Sum(Squares(Column(data, j))))
  }

  /** One cell of the normalised matrix: the value over its column's divisor,
      or 0 when the divisor is not positive. */
  function NormalizedCell(data: seq<seq<real>>, i: nat, j: nat, sqrt: real -> real): real
    requires i < |data| && forall a :: 0 <= a < |data| ==> j < |data[a]|
  {
    var d := Divisor(data, j, sqrt);
    if d > 0.0 then data[i][j] / d else 0.0
  }

  /** The normalised matrix, of the same shape as the data. */
  function Normalized(data: seq<seq<real>>, cols: nat, sqrt: real -> real): (n: seq<seq<real>>)
    requires IsMatrix(data, |data|, cols)
    ensures IsMatrix(n, |data|, cols)
    ensures forall i, j :: 0 <= i < |data| && 0 <= j < cols ==> n[i][j] == NormalizedCell(data, i, j, sqrt)
  {
    seq(|data|, i requires 0 <= i < |data| =>
      seq(cols, j requires 0 <= j < cols => NormalizedCell(data, i, j, sqrt)))
  }

  /** The weighted normalised matrix: column j of the normalised matrix
      scaled by weight j. */
  function Weighted(norm: seq<seq<real>>, weights: seq<real>): (w: seq<seq<real>>)
    requires IsMatrix(norm, |norm|, |weights|)
    ensures IsMatrix(w, |norm|, |weights|)
    ensures forall i, j :: 0 <= i < |norm| && 0 <= j < |weights| ==> w[i][j] == norm[i][j] * weights[j]
  {
    seq(|norm|, i requires 0 <= i < |norm| =>
      seq(|weights|, j requires 0 <= j < |weights| => norm[i][j] * weights[j]))
  }

  /** Component j of the positive ideal: the column maximum for a Benefit
      criterion, the minimum for a Cost criterion. */
  function PositiveIdealValue(col: seq<real>, d: Direction): real
    requires |col| >= 1
  {
    match d
    case Benefit => Max(col)
    case Cost => Min(col)
  }

  /** Component j of the negative ideal: the column minimum for a Benefit
      criterion, the maximum for a Cost criterion. */
  function NegativeIdealValue(col: seq<real>, d: Direction): real
    requires |col| >= 1
  {
    match d
    case Benefit => Min(col)
    case Cost => Max(col)
  }

  /** The positive ideal solution A⁺. */
  function PositiveIdeal(w: seq<seq<real>>, dirs: seq<Direction>): (a: seq<real>)
    requires |w| >= 1 && IsMatrix(w, |w|, |dirs|)
    ensures |a| == |dirs| && forall j :: 0 <= j < |dirs| ==> a[j] == PositiveIdealValue(Column(w, j), dirs[j])
  {
    seq(|dirs|, j requires 0 <= j < |dirs| => PositiveIdealValue(Column(w, j), dirs[j]))
  }

  /** The negative ideal solution A⁻. */
  function NegativeIdeal(w: seq<seq<real>>, dirs: seq<Direction>): (a: seq<real>)
    requires |w| >= 1 && IsMatrix(w, |w|, |dirs|)
    ensures |a| == |dirs| && forall j :: 0 <= j < |dirs| ==> a[j] == NegativeIdealValue(Column(w, j), dirs[j])
  {
    seq(|dirs|, j requires 0 <= j < |dirs| => NegativeIdealValue(Column(w, j), dirs[j]))
  }

  /** The squared differences (row_j - ideal_j)². */
  function SquaredDifferences(row: seq<real>, ideal: seq<real>): (q: seq<real>)
    requires |row| == |ideal|
    ensures |q| == |row| && forall j :: 0 <= j < |row| ==> q[j] == Square(row[j] - ideal[j])
  {
    seq(|row|, j requires 0 <= j < |row| => Square(row[j] - ideal[j]))
  }

  /** The Euclidean distance from a row to an ideal. */
  function Distance(row: seq<real>, ideal: seq<real>, sqrt: real -> real): real
    requires |row| == |ideal|
  {
    sqrt(Sum(SquaredDifferences(row, ideal)))
  }

  /** The distance of every alternative to one ideal. */
  function Distances(w: seq<seq<real>>, ideal: seq<real>, sqrt: real -> real): (d: seq<real>)
    requires IsMatrix(w, |w|, |ideal|)
    ensures |d| == |w| && forall i :: 0 <= i < |w| ==> d[i] == Distance(w[i], ideal, sqrt)
  {
    seq(|w|, i requires 0 <= i < |w| => Distance(w[i], ideal, sqrt))
  }

  /** The relative closeness of one alternative, or 0 when both distances add
      up to 0 or less: the share of D⁻ in D⁺ + D⁻. */
  function Closeness(dPos: real, dNeg: real): (c: real)
    ensures dPos + dNeg > 0.0 ==> c * (dPos + dNeg) == dNeg
    ensures dPos + dNeg <= 0.0 ==> c == 0.0
  {
    if dPos + dNeg > 0.0 then dNeg / (dPos + dNeg) else 0.0
  }

  /** The preference vector, one closeness per alternative. */
  function Preferences(dPos: seq<real>, dNeg: seq<real>): (v: seq<real>)
    requires |dPos| == |dNeg|
    ensures |v| == |dPos| && forall i :: 0 <= i < |dPos| ==> v[i] == Closeness(dPos[i], dNeg[i])
  {
    seq(|dPos|, i requires 0 <= i < |dPos| => Closeness(dPos[i], dNeg[i]))
  }

  /** The TOPSIS routine, with every intermediate result it reports. */
  method Compute(data: seq<seq<real>>, weights: seq<real>, dirs: seq<Direction>, sqrt: real -> real)
    returns (norm: seq<seq<real>>, w: seq<seq<real>>, idealPos: seq<real>, idealNeg: seq<real>,
             dPos: seq<real>, dNeg: seq<real>, pref: seq<real>)
    requires WellFormed(data, weights, dirs)
    ensures norm == Normalized(data, |dirs|, sqrt)
    ensures w == Weighted(norm, weights)
    ensures idealPos == PositiveIdeal(w, dirs) && idealNeg == NegativeIdeal(w, dirs)
    ensures dPos == Distances(w, idealPos, sqrt) && dNeg == Distances(w, idealNeg, sqrt)
    ensures pref == Preferences(dPos, dNeg)
  {
    norm := Normalize(data, |dirs|, sqrt);
    w := Weighted(norm, weights);
    idealPos, idealNeg := Ideals(w, dirs);
    dPos, dNeg := Separations(w, idealPos, idealNeg, sqrt);
    pref := Preferences(dPos, dNeg);
  }

  /** Normalisation: fills a matrix of zeros column by column, each column
      divided by the square root of its sum of squares. */
  method Normalize(data: seq<seq<real>>, cols: nat, sqrt: real -> real) returns (norm: seq<seq<real>>)
    requires IsMatrix(data, |data|, cols)
    ensures norm == Normalized(data, cols, sqrt)
  {
    var rows := |data|;
    norm := seq(rows, _ => seq(cols, _ => 0.0));
    for j := 0 to cols
      invariant IsMatrix(norm, rows, cols)
      invariant forall a, b :: 0 <= a < rows && 0 <= b < j ==> norm[a][b] == NormalizedCell(data, a, b, sqrt)
    {
      var col := Column(data, j);
      var sumSquares := Sum(Squares(col));
      var divisor := sqrt(sumSquares);
      for i := 0 to rows
        invariant IsMatrix(norm, rows, cols)
        invariant forall a, b :: 0 <= a < rows && 0 <= b < j ==> norm[a][b] == NormalizedCell(data, a, b, sqrt)
        invariant forall a :: 0 <= a < i ==> norm[a][j] == NormalizedCell(data, a, j, sqrt)
      {
        norm := norm[i := norm[i][j := if divisor > 0.0 then data[i][j] / divisor else 0.0]];
      }
    }
    assert forall a :: 0 <= a < rows ==> norm[a] == Normalized(data, cols, sqrt)[a];
  }

  /** The ideal solutions, appended one criterion at a time. */
  method Ideals(w: seq<seq<real>>, dirs: seq<Direction>) returns (idealPos: seq<real>, idealNeg: seq<real>)
    requires |w| >= 1 && IsMatrix(w, |w|, |dirs|)
    ensures idealPos == PositiveIdeal(w, dirs) && idealNeg == NegativeIdeal(w, dirs)
  {
    ghost var pos, neg := PositiveIdeal(w, dirs), NegativeIdeal(w, dirs);
    idealPos, idealNeg := [], [];
    for j := 0 to |dirs|
      invariant idealPos == pos[..j] && idealNeg == neg[..j]
    {
      var best, worst := IdealValues(Column(w, j), dirs[j]);
      assert pos[..j + 1] == pos[..j] + [best] && neg[..j + 1] == neg[..j] + [worst];
      idealPos, idealNeg := idealPos + [best], idealNeg + [worst];
    }
    assert pos[..|dirs|] == pos && neg[..|dirs|] == neg;
  }

  /** Both ideal components of one column, chosen by the criterion's direction. */
  method IdealValues(col: seq<real>, d: Direction) returns (best: real, worst: real)
    requires |col| >= 1
    ensures best == PositiveIdealValue(col, d) && worst == NegativeIdealValue(col, d)
  {
    if d == Benefit {
      best, worst := Max(col), Min(col);
    } else {
      best, worst := Min(col), Max(col);
    }
  }

  /** The distances to both ideals, appended one alternative at a time. */
  method Separations(w: seq<seq<real>>, idealPos: seq<real>, idealNeg: seq<real>, sqrt: real -> real)
    returns (dPos: seq<real>, dNeg: seq<real>)
    requires |idealNeg| == |idealPos| && IsMatrix(w, |w|, |idealPos|)
    ensures dPos == Distances(w, idealPos, sqrt) && dNeg == Distances(w, idealNeg, sqrt)
  {
    dPos, dNeg := [], [];
    for i := 0 to |w|
      invariant |dPos| == i && |dNeg| == i
      invariant forall a :: 0 <= a < i ==> dPos[a] == Distance(w[a], idealPos, sqrt)
      invariant forall a :: 0 <= a < i ==> dNeg[a] == Distance(w[a], idealNeg, sqrt)
    {
      dPos := dPos + [Distance(w[i], idealPos, sqrt)];
      dNeg := dNeg + [Distance(w[i], idealNeg, sqrt)];
    }
  }

  /** The assumed square root is 0 exactly at 0. */
  lemma SqrtZero(sqrt: real -> real, x: real)
    requires IsSqrt(sqrt) && x >= 0.0
    ensures sqrt(x) >= 0.0
    ensures sqrt(x) == 0.0 <==> x == 0.0
  {
    SquareSign(sqrt(x));
  }

  /** A column of zeros normalises to zeros. */
  lemma ZeroColumnNormalizesToZero(data: seq<seq<real>>, cols: nat, j: nat, sqrt: real -> real)
    requires IsMatrix(data, |data|, cols) && j < cols && IsSqrt(sqrt)
    requires forall i :: 0 <= i < |data| ==> data[i][j] == 0.0
    ensures forall i :: 0 <= i < |data| ==> Normalized(data, cols, sqrt)[i][j] == 0.0
  {
    var q := Squares(Column(data, j));
    forall i | 0 <= i < |q|
      ensures q[i] == 0.0
    {
      SquareSign(0.0);
    }
    SumConstant(q, 0.0);
    SqrtZero(sqrt, Sum(q));
  }

  /** A column with a positive sum of squares normalises to a unit vector:
      the squares of its normalised values sum to 1. */
  lemma NormalizedColumnIsUnit(data: seq<seq<real>>, cols: nat, j: nat, sqrt: real -> real)
    requires IsMatrix(data, |data|, cols) && j < cols && IsSqrt(sqrt)
    requires Sum(Squares(Column(data, j))) > 0.0
    ensures Sum(Squares(Column(Normalized(data, cols, sqrt), j))) == 1.0
  {
    var q := Squares(Column(data, j));
    var total := Sum(q);
    var d := Divisor(data, j, sqrt);
    assert d >= 0.0 && Square(d) == total;
    SquareSign(d);
    assert d > 0.0;
    var c := Column(Normalized(data, cols, sqrt), j);
    var qc := Squares(c);
    forall i | 0 <= i < |data|
      ensures qc[i] == q[i] / total
    {
      assert c[i] == data[i][j] / d;
      SquareOfRatio(data[i][j], d);
    }
    SumDivide(q, total, qc);
    SelfRatio(total);
  }

  /** With non-negative data every normalised value lies in [0, 1]. */
  lemma NormalizedInUnitInterval(data: seq<seq<real>>, cols: nat, i: nat, j: nat, sqrt: real -> real)
    requires IsMatrix(data, |data|, cols) && i < |data| && j < cols && IsSqrt(sqrt)
    requires NonNegative(data)
    ensures 0.0 <= Normalized(data, cols, sqrt)[i][j] <= 1.0
  {
    var d := Divisor(data, j, sqrt);
    var q := Squares(Column(data, j));
    SquaresNonNegative(Column(data, j));
    SumNonNegative(q);
    if d > 0.0 {
      TermAtMostSum(q, i);
      assert Square(data[i][j]) <= Square(d);
      if data[i][j] > d {
        SquareIncreasing(d, data[i][j]);
      }
      RatioInUnitInterval(data[i][j], d);
    }
  }

  /** Every weighted value of a Benefit column lies between its negative and
      positive ideal components, every value of a Cost column between its
      positive and negative ones, and each component is attained by some
      alternative. */
  lemma IdealBounds(w: seq<seq<real>>, dirs: seq<Direction>, j: nat)
    requires |w| >= 1 && IsMatrix(w, |w|, |dirs|) && j < |dirs|
    ensures var pos := PositiveIdeal(w, dirs)[j];
      var neg := NegativeIdeal(w, dirs)[j];
      (dirs[j] == Benefit ==> forall i :: 0 <= i < |w| ==> neg <= w[i][j] <= pos) &&
      (dirs[j] == Cost ==> forall i :: 0 <= i < |w| ==> pos <= w[i][j] <= neg) &&
      (exists i :: 0 <= i < |w| && w[i][j] == pos) &&
      (exists i :: 0 <= i < |w| && w[i][j] == neg)
  {
    var col := Column(w, j);
    assert forall i :: 0 <= i < |w| ==> col[i] == w[i][j];
    var a :| 0 <= a < |col| && col[a] == Max(col);
    var b :| 0 <= b < |col| && col[b] == Min(col);
    assert w[a][j] == Max(col) && w[b][j] == Min(col);
  }

  /** Distances are non-negative and a distance is 0 exactly when the row
      coincides with the ideal. */
  lemma DistanceZeroIffAtIdeal(row: seq<real>, ideal: seq<real>, sqrt: real -> real)
    requires |row| == |ideal| && IsSqrt(sqrt)
    ensures Distance(row, ideal, sqrt) >= 0.0
    ensures Distance(row, ideal, sqrt) == 0.0 <==> row == ideal
  {
    var q := SquaredDifferences(row, ideal);
    forall j | 0 <= j < |q|
      ensures q[j] >= 0.0 && (q[j] == 0.0 <==> row[j] == ideal[j])
    {
      SquareSign(row[j] - ideal[j]);
    }
    SumNonNegative(q);
    SqrtZero(sqrt, Sum(q));
    if row == ideal {
      SumConstant(q, 0.0);
    } else if Sum(q) == 0.0 {
      var j :| 0 <= j < |row| && row[j] != ideal[j];
      TermAtMostSum(q, j);
      assert false;
    }
  }

  /** With non-negative distances, the closeness lies in [0, 1]; it is 0
      when the distances add up to 0 and 1 when the alternative sits on the
      positive ideal but not on the negative one. */
  lemma ClosenessBounds(dPos: real, dNeg: real)
    requires dPos >= 0.0 && dNeg >= 0.0
    ensures 0.0 <= Closeness(dPos, dNeg) <= 1.0
    ensures dPos + dNeg == 0.0 ==> Closeness(dPos, dNeg) == 0.0
    ensures dPos == 0.0 && dNeg > 0.0 ==> Closeness(dPos, dNeg) == 1.0
    ensures dNeg == 0.0 ==> Closeness(dPos, dNeg) == 0.0
  {
    if dPos + dNeg > 0.0 {
      RatioInUnitInterval(dNeg, dPos + dNeg);
      if dPos == 0.0 {
        SelfRatio(dNeg);
      }
    }
  }

  /** Every preference TOPSIS reports lies in [0, 1]; an alternative equal to
      the positive ideal but not to the negative one has preference 1, and
      one equal to the negative ideal has preference 0. */
  lemma PreferenceBounds(data: seq<seq<real>>, weights: seq<real>, dirs: seq<Direction>, sqrt: real -> real, i: nat)
    requires WellFormed(data, weights, dirs) && IsSqrt(sqrt) && i < |data|
    ensures var w := Weighted(Normalized(data, |dirs|, sqrt), weights);
      var pos := PositiveIdeal(w, dirs);
      var neg := NegativeIdeal(w, dirs);
      var pref := Preferences(Distances(w, pos, sqrt), Distances(w, neg, sqrt));
      0.0 <= pref[i] <= 1.0 &&
      (w[i] == pos && w[i] != neg ==> pref[i] == 1.0) &&
      (w[i] == neg ==> pref[i] == 0.0)
  {
    var w := Weighted(Normalized(data, |dirs|, sqrt), weights);
    var pos := PositiveIdeal(w, dirs);
    var neg := NegativeIdeal(w, dirs);
    DistanceZeroIffAtIdeal(w[i], pos, sqrt);
    DistanceZeroIffAtIdeal(w[i], neg, sqrt);
    ClosenessBounds(Distance(w[i], pos, sqrt), Distance(w[i], neg, sqrt));
  }
}
