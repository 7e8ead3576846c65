/** Simple Additive Weighting: each column is normalised against its best
    value (x / max for a Benefit criterion, min / x for a Cost criterion) and
    an alternative's preference is the weighted sum of its normalised row. */
module Saw {
  import opened Numeric
  import opened Decision

  /** Benefit normalisation of one cell; a column whose maximum is not positive gives 0. */
  function BenefitRatio(x: real, maxValue: real): real
  {
    if maxValue > 0.0 then x / maxValue else 0.0
  }

  /** Cost normalisation of one cell; a cell that is not positive gives 0. */
  function CostRatio(x: real, minValue: real): real
  {
    if x > 0.0 then minValue / x else 0.0
  }

  /** r_ij of the normalised matrix R. */
  function NormalizedCell(data: seq<seq<real>>, dirs: seq<Direction>, i: nat, j: nat): real
    requires |data| >= 1 && IsMatrix(data, |data|, |dirs|)
    requires i < |data| && j < |dirs|
  {
    var col := Column(data, j);
    match dirs[j]
    case Benefit => BenefitRatio(data[i][j], Max(col))
    case Cost => CostRatio(data[i][j], Min(col))
  }

  /** The normalised matrix R, of the same shape as the data. */
  function Normalized(data: seq<seq<real>>, dirs: seq<Direction>): (r: seq<seq<real>>)
    requires |data| >= 1 && IsMatrix(data, |data|, |dirs|)
    ensures IsMatrix(r, |data|, |dirs|)
    ensures forall i, j :: 0 <= i < |data| && 0 <= j < |dirs| ==> r[i][j] == NormalizedCell(data, dirs, i, j)
  {
    seq(|data|, i requires 0 <= i < |data| =>
      seq(|dirs|, j requires 0 <= j < |dirs| => NormalizedCell(data, dirs, i, j)))
  }

  /** The preference vector V, V_i = Σ_j w_j * r_ij, one entry per row of R. */
  function Preferences(weights: seq<real>, r: seq<seq<real>>): (v: seq<real>)
    requires IsMatrix(r, |r|, |weights|)
    ensures |v| == |r| && forall i :: 0 <= i < |r| ==> v[i] == WeightedSum(weights, r[i])
  {
    seq(|r|, i requires 0 <= i < |r| => WeightedSum(weights, r[i]))
  }

  /** The SAW routine: step 1 normalises the matrix, step 2 scores each row. */
  method Compute(data: seq<seq<real>>, weights: seq<real>, dirs: seq<Direction>)
    returns (r: seq<seq<real>>, v: seq<real>)
    requires WellFormed(data, weights, dirs)
    ensures r == Normalized(data, dirs)
    ensures v == Preferences(weights, r)
  {
    r := Normalize(data, dirs);
    v := Score(weights, r);
  }

  /** Step 1: fills R, preallocated with zeros, column by column. */
  method Normalize(data: seq<seq<real>>, dirs: seq<Direction>) returns (r: seq<seq<real>>)
    requires |data| >= 1 && IsMatrix(data, |data|, |dirs|)
    ensures r == Normalized(data, dirs)
  {
    var nAlt, nCrit := |data|, |dirs|;
    r := seq(nAlt, _ => seq(nCrit, _ => 0.0));
    for j := 0 to nCrit
      invariant IsMatrix(r, nAlt, nCrit)
      invariant forall a, b :: 0 <= a < nAlt && 0 <= b < j ==> r[a][b] == NormalizedCell(data, dirs, a, b)
    {
      r := NormalizeColumn(data, dirs, j, r);
    }
    assert forall a :: 0 <= a < nAlt ==> r[a] == Normalized(data, dirs)[a];
  }

  /** One pass of step 1: column j of R is filled against the column's maximum
      (Benefit) or minimum (Cost); the other columns are left as they are. */
  method NormalizeColumn(data: seq<seq<real>>, dirs: seq<Direction>, j: nat, r0: seq<seq<real>>)
    returns (r: seq<seq<real>>)
    requires |data| >= 1 && IsMatrix(data, |data|, |dirs|) && j < |dirs|
    requires IsMatrix(r0, |data|, |dirs|)
    ensures IsMatrix(r, |data|, |dirs|)
    ensures forall a :: 0 <= a < |data| ==> r[a][j] == NormalizedCell(data, dirs, a, j)
    ensures forall a, b :: 0 <= a < |data| && 0 <= b < |dirs| && b != j ==> r[a][b] == r0[a][b]
  {
    var nAlt, nCrit := |data|, |dirs|;
    var col := Column(data, j);
    r := r0;
    if dirs[j] == Benefit {
      var maxValue := Max(col);
      for i := 0 to nAlt
        invariant IsMatrix(r, nAlt, nCrit)
        invariant forall a, b :: 0 <= a < nAlt && 0 <= b < nCrit && b != j ==> r[a][b] == r0[a][b]
        invariant forall a :: 0 <= a < i ==> r[a][j] == NormalizedCell(data, dirs, a, j)
      {
        r := r[i := r[i][j := BenefitRatio(data[i][j], maxValue)]];
      }
    } else {
      var minValue := Min(col);
      for i := 0 to nAlt
        invariant IsMatrix(r, nAlt, nCrit)
        invariant forall a, b :: 0 <= a < nAlt && 0 <= b < nCrit && b != j ==> r[a][b] == r0[a][b]
        invariant forall a :: 0 <= a < i ==> r[a][j] == NormalizedCell(data, dirs, a, j)
      {
        r := r[i := r[i][j := CostRatio(data[i][j], minValue)]];
      }
    }
  }

  /** Step 2: accumulates each alternative's weighted sum in a running total. */
  method Score(weights: seq<real>, r: seq<seq<real>>) returns (v: seq<real>)
    requires IsMatrix(r, |r|, |weights|)
    ensures v == Preferences(weights, r)
  {
    var nAlt, nCrit := |r|, |weights|;
    v := [];
    for i := 0 to nAlt
      invariant |v| == i
      invariant forall a :: 0 <= a < i ==> v[a] == WeightedSum(weights, r[a])
    {
      ghost var terms := WeightedTerms(weights, r[i]);
      var acc := 0.0;
      for j := 0 to nCrit
        invariant acc == Sum(terms[..j])
      {
        SumStep(terms, j);
        acc := acc + weights[j] * r[i][j];
      }
      assert terms[..nCrit] == terms;
      v := v + [acc];
    }
  }

  /** With non-negative data every normalised value lies in [0, 1]. */
  lemma NormalizedInUnitInterval(data: seq<seq<real>>, dirs: seq<Direction>, i: nat, j: nat)
    requires |data| >= 1 && IsMatrix(data, |data|, |dirs|) && NonNegative(data)
    requires i < |data| && j < |dirs|
    ensures 0.0 <= Normalized(data, dirs)[i][j] <= 1.0
  {
    var col := Column(data, j);
    if dirs[j] == Benefit {
      var m := Max(col);
      assert col[i] <= m;
      if m > 0.0 {
        RatioInUnitInterval(data[i][j], m);
      }
    } else {
      var m := Min(col);
      assert m <= col[i];
      ghost var k :| 0 <= k < |col| && col[k] == m;
      assert m >= 0.0;
      if data[i][j] > 0.0 {
        RatioInUnitInterval(m, data[i][j]);
      }
    }
  }

  /** In a Benefit column with a positive maximum, the rows holding the maximum get 1. */
  lemma BenefitMaximumIsOne(data: seq<seq<real>>, dirs: seq<Direction>, i: nat, j: nat)
    requires |data| >= 1 && IsMatrix(data, |data|, |dirs|)
    requires i < |data| && j < |dirs| && dirs[j] == Benefit
    requires Max(Column(data, j)) > 0.0 && data[i][j] == Max(Column(data, j))
    ensures Normalized(data, dirs)[i][j] == 1.0
  {
    var top := Max(Column(data, j));
    assert NormalizedCell(data, dirs, i, j) == BenefitRatio(data[i][j], top);
    SelfRatio(top);
  }

  /** A Benefit column of zeros normalises to zeros. */
  lemma BenefitZeroColumn(data: seq<seq<real>>, dirs: seq<Direction>, j: nat)
    requires |data| >= 1 && IsMatrix(data, |data|, |dirs|)
    requires j < |dirs| && dirs[j] == Benefit
    requires forall i :: 0 <= i < |data| ==> data[i][j] == 0.0
    ensures forall i :: 0 <= i < |data| ==> Normalized(data, dirs)[i][j] == 0.0
  {
    var col := Column(data, j);
    ghost var k :| 0 <= k < |col| && col[k] == Max(col);
    assert Max(col) == 0.0;
  }

  /** In a Cost column a zero cell gives 0, and a positive cell holding the
      column minimum gives 1. */
  lemma CostCells(data: seq<seq<real>>, dirs: seq<Direction>, i: nat, j: nat)
    requires |data| >= 1 && IsMatrix(data, |data|, |dirs|)
    requires i < |data| && j < |dirs| && dirs[j] == Cost
    ensures data[i][j] == 0.0 ==> Normalized(data, dirs)[i][j] == 0.0
    ensures data[i][j] > 0.0 && data[i][j] == Min(Column(data, j)) ==> Normalized(data, dirs)[i][j] == 1.0
  {
    if data[i][j] > 0.0 {
      SelfRatio(data[i][j]);
    }
  }

  /** With non-negative weights and data, every preference lies between 0 and
      the total weight. */
  lemma PreferenceBounds(data: seq<seq<real>>, weights: seq<real>, dirs: seq<Direction>, i: nat)
    requires WellFormed(data, weights, dirs) && NonNegative(data) && NonNegativeWeights(weights)
    requires i < |data|
    ensures 0.0 <= Preferences(weights, Normalized(data, dirs))[i] <= Sum(weights)
  {
    var r := Normalized(data, dirs);
    forall j | 0 <= j < |dirs|
      ensures 0.0 <= r[i][j] <= 1.0
    {
      NormalizedInUnitInterval(data, dirs, i, j);
    }
    WeightedSumOfFractions(weights, r[i]);
  }

  /** Reordering the criteria moves each normalised column along with its
      criterion: the column a criterion gets does not depend on its position. */
  lemma NormalizedUnderReordering(data: seq<seq<real>>, dirs: seq<Direction>, pi: seq<nat>)
    requires |data| >= 1 && IsMatrix(data, |data|, |dirs|) && IsPermutation(pi, |dirs|)
    ensures var r := Normalized(data, dirs);
      var moved := Normalized(PermuteColumns(data, |data|, |dirs|, pi), Permute(dirs, pi));
      forall i, j :: 0 <= i < |data| && 0 <= j < |dirs| ==> moved[i][j] == r[i][pi[j]]
  {
    var moved := PermuteColumns(data, |data|, |dirs|, pi);
    forall j | 0 <= j < |dirs|
      ensures Column(moved, j) == Column(data, pi[j])
    {
    }
  }

  /** The weighted terms of a reordered row, against the weights reordered the
      same way, are the original terms in the new order. */
  lemma TermsUnderReordering(weights: seq<real>, row: seq<real>, moved: seq<real>, pi: seq<nat>)
    requires |row| == |weights| && |moved| == |weights| && IsPermutation(pi, |weights|)
    requires forall j :: 0 <= j < |weights| ==> moved[j] == row[pi[j]]
    ensures WeightedTerms(Permute(weights, pi), moved) == Permute(WeightedTerms(weights, row), pi)
  {
    var a := WeightedTerms(Permute(weights, pi), moved);
    var b := Permute(WeightedTerms(weights, row), pi);
    forall j | 0 <= j < |weights|
      ensures a[j] == b[j]
    {
    }
    assert a == b;
  }

  /** SAW does not depend on the order in which the criteria are entered:
      reordering the columns of the data together with their weights and
      directions leaves every preference unchanged. */
  lemma PreferencesUnderReordering(data: seq<seq<real>>, weights: seq<real>, dirs: seq<Direction>, pi: seq<nat>)
    requires WellFormed(data, weights, dirs) && IsPermutation(pi, |dirs|)
    ensures var moved := PermuteColumns(data, |data|, |dirs|, pi);
      Preferences(Permute(weights, pi), Normalized(moved, Permute(dirs, pi)))
        == Preferences(weights, Normalized(data, dirs))
  {
    var w2 := Permute(weights, pi);
    var r := Normalized(data, dirs);
    var r2 := Normalized(PermuteColumns(data, |data|, |dirs|, pi), Permute(dirs, pi));
    NormalizedUnderReordering(data, dirs, pi);
    var v := Preferences(weights, r);
    var v2 := Preferences(w2, r2);
    forall i | 0 <= i < |data|
      ensures v2[i] == v[i]
    {
      TermsUnderReordering(weights, r[i], r2[i], pi);
      SumPermute(WeightedTerms(weights, r[i]), pi);
    }
    assert v2 == v;
  }
}
