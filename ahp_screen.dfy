/** The AHP screen around the engine: it builds reciprocal pairwise matrices
    from the judgments entered for the upper triangle, runs the engine on the
    criteria matrix and on one alternatives matrix per criterion, and
    combines the priority vectors with the criteria weights into final scores. */
module AhpScreen {
  import opened Numeric
  import opened Ahp

  /** The value stored at (i, j) of a pairwise matrix: the judgment entered for
      i < j (1 when it is not positive), its reciprocal below the diagonal (1
      when the judgment is not positive), and 1 on the diagonal. */
  function PairwiseEntry(judgments: seq<seq<real>>, i: nat, j: nat): real
    requires IsMatrix(judgments, |judgments|, |judgments|)
    requires i < |judgments| && j < |judgments|
  {
    if i < j then
      (if judgments[i][j] > 0.0 then judgments[i][j] else 1.0)
    else if j < i then
      (if judgments[j][i] > 0.0 then 1.0 / judgments[j][i] else 1.0)
    else 1.0
  }

  /** The pairwise matrix the screen builds from the judgments. */
  function PairwiseMatrix(judgments: seq<seq<real>>): (m: seq<seq<real>>)
    requires IsMatrix(judgments, |judgments|, |judgments|)
    ensures IsMatrix(m, |judgments|, |judgments|)
    ensures forall i, j :: 0 <= i < |m| && 0 <= j < |m| ==> m[i][j] == PairwiseEntry(judgments, i, j)
  {
    var n := |judgments|;
    seq(n, i requires 0 <= i < n => seq(n, j requires 0 <= j < n => PairwiseEntry(judgments, i, j)))
  }

  /** Whether the loops have already written cell (a, b) when they are about to
      handle pair (i, j); pairs are visited row by row above the diagonal. */
  predicate Written(a: nat, b: nat, i: nat, j: nat)
  {
    var lo := if a < b then a else b;
    var hi := if a < b then b else a;
    lo < hi && (lo < i || (lo == i && hi < j))
  }

  /** Starts from a matrix of ones and, for every pair i < j, writes the
      judgment at (i, j) and its reciprocal at (j, i). */
  method BuildPairwise(judgments: seq<seq<real>>) returns (m: seq<seq<real>>)
    requires IsMatrix(judgments, |judgments|, |judgments|)
    ensures m == PairwiseMatrix(judgments)
  {
    var n := |judgments|;
    m := seq(n, _ => seq(n, _ => 1.0));
    for i := 0 to n
      invariant IsMatrix(m, n, n)
      invariant forall a, b :: 0 <= a < n && 0 <= b < n ==>
        m[a][b] == if Written(a, b, i, 0) then PairwiseEntry(judgments, a, b) else 1.0
    {
      for j := i + 1 to n
        invariant IsMatrix(m, n, n)
        invariant forall a, b :: 0 <= a < n && 0 <= b < n ==>
          m[a][b] == if Written(a, b, i, j) then PairwiseEntry(judgments, a, b) else 1.0
      {
        var value := judgments[i][j];
        m := m[i := m[i][j := if value > 0.0 then value else 1.0]];
        m := m[j := m[j][i := if value > 0.0 then 1.0 / value else 1.0]];
      }
      assert forall a, b :: 0 <= a < n && 0 <= b < n ==> Written(a, b, i, n) == Written(a, b, i + 1, 0);
    }
    assert forall a, b :: 0 <= a < n && 0 <= b < n ==> Written(a, b, n, 0) || a == b;
    assert forall a :: 0 <= a < n ==> m[a] == PairwiseMatrix(judgments)[a];
  }

  /** A built pairwise matrix has ones on the diagonal and positive entries,
      and opposite entries multiply to 1. */
  lemma PairwiseReciprocal(judgments: seq<seq<real>>, i: nat, j: nat)
    requires IsMatrix(judgments, |judgments|, |judgments|)
    requires i < |judgments| && j < |judgments|
    ensures var m := PairwiseMatrix(judgments);
      m[i][i] == 1.0 && m[i][j] > 0.0 && m[i][j] * m[j][i] == 1.0
  {
    var m := PairwiseMatrix(judgments);
    if i < j && judgments[i][j] > 0.0 {
      ReciprocalProduct(judgments[i][j]);
      RatioPositive(1.0, judgments[i][j]);
    } else if j < i && judgments[j][i] > 0.0 {
      ReciprocalProduct(judgments[j][i]);
      RatioPositive(1.0, judgments[j][i]);
    }
  }

  /** A positive judgment v for i < j is stored as v and 1 / v; a judgment that
      is not positive is stored as 1 on both sides. */
  lemma PairwiseFromJudgment(judgments: seq<seq<real>>, i: nat, j: nat)
    requires IsMatrix(judgments, |judgments|, |judgments|)
    requires i < j < |judgments|
    ensures var m := PairwiseMatrix(judgments);
      var v := judgments[i][j];
      (v > 0.0 ==> m[i][j] == v && m[j][i] == 1.0 / v) &&
      (v <= 0.0 ==> m[i][j] == 1.0 && m[j][i] == 1.0)
  {
  }

  /** Every built pairwise matrix has only positive entries. */
  lemma PairwisePositive(judgments: seq<seq<real>>)
    requires IsMatrix(judgments, |judgments|, |judgments|)
    ensures AllPositive(PairwiseMatrix(judgments))
  {
    forall i, j | 0 <= i < |judgments| && 0 <= j < |judgments|
      ensures PairwiseMatrix(judgments)[i][j] > 0.0
    {
      PairwiseReciprocal(judgments, i, j);
    }
  }

  /** Whatever the judgments, the weights of a built pairwise matrix lie in
      (0, 1] and sum to 1. */
  lemma PairwiseWeights(judgments: seq<seq<real>>)
    requires |judgments| >= 1 && IsMatrix(judgments, |judgments|, |judgments|)
    ensures var w := Analyze(PairwiseMatrix(judgments)).weights;
      |w| == |judgments| && Sum(w) == 1.0 && forall i :: 0 <= i < |w| ==> 0.0 < w[i] <= 1.0
  {
    var m := PairwiseMatrix(judgments);
    PairwisePositive(judgments);
    WeightsOfPositiveSumToOne(m);
    forall i | 0 <= i < |m|
      ensures 0.0 < PriorityWeights(m)[i] <= 1.0
    {
      WeightOfPositiveInUnitInterval(m, i);
    }
  }

  /** The priority matrix, alternatives by criteria: P[i][k] is the priority of
      alternative i under criterion k. */
  function PriorityMatrix(priorities: seq<seq<real>>, nAlt: nat): (p: seq<seq<real>>)
    requires IsMatrix(priorities, |priorities|, nAlt)
    ensures IsMatrix(p, nAlt, |priorities|)
    ensures forall i, k :: 0 <= i < nAlt && 0 <= k < |priorities| ==> p[i][k] == priorities[k][i]
  {
    seq(nAlt, i requires 0 <= i < nAlt =>
      seq(|priorities|, k requires 0 <= k < |priorities| => priorities[k][i]))
  }

  /** Score_i = Σ_k P[i][k] * w_k for each alternative. */
  function FinalScores(p: seq<seq<real>>, criteriaWeights: seq<real>): (s: seq<real>)
    requires IsMatrix(p, |p|, |criteriaWeights|)
    ensures |s| == |p| && forall i :: 0 <= i < |p| ==> s[i] == WeightedSum(criteriaWeights, p[i])
  {
    seq(|p|, i requires 0 <= i < |p| => WeightedSum(criteriaWeights, p[i]))
  }

  /** Builds the priority matrix row by row and appends each alternative's
      final score. */
  method Aggregate(priorities: seq<seq<real>>, criteriaWeights: seq<real>, nAlt: nat)
    returns (p: seq<seq<real>>, scores: seq<real>)
    requires IsMatrix(priorities, |criteriaWeights|, nAlt)
    ensures p == PriorityMatrix(priorities, nAlt)
    ensures scores == FinalScores(p, criteriaWeights)
  {
    var nCrit := |criteriaWeights|;
    p := [];
    for i := 0 to nAlt
      invariant |p| == i
      invariant forall a :: 0 <= a < i ==> p[a] == PriorityMatrix(priorities, nAlt)[a]
    {
      var row := seq(nCrit, k requires 0 <= k < nCrit => priorities[k][i]);
      p := p + [row];
    }
    scores := [];
    for i := 0 to nAlt
      invariant |scores| == i
      invariant forall a :: 0 <= a < i ==> scores[a] == WeightedSum(criteriaWeights, p[a])
    {
      scores := scores + [WeightedSum(criteriaWeights, p[i])];
    }
  }

  /** A distribution: non-negative values that sum to 1. */
  predicate Distribution(s: seq<real>)
  {
    Sum(s) == 1.0 && forall i :: 0 <= i < |s| ==> s[i] >= 0.0
  }

  /** The terms P[i][k] * w_k of every final score, one row per alternative. */
  function ScoreTerms(p: seq<seq<real>>, criteriaWeights: seq<real>): (t: seq<seq<real>>)
    requires IsMatrix(p, |p|, |criteriaWeights|)
    ensures IsMatrix(t, |p|, |criteriaWeights|)
    ensures forall i :: 0 <= i < |p| ==> t[i] == WeightedTerms(criteriaWeights, p[i])
  {
    seq(|p|, i requires 0 <= i < |p| => WeightedTerms(criteriaWeights, p[i]))
  }

  /** Summing the terms of criterion k over the alternatives gives w_k times
      the total of that criterion's priority vector. */
  lemma ScoreTermColumn(priorities: seq<seq<real>>, criteriaWeights: seq<real>, nAlt: nat, k: nat)
    requires IsMatrix(priorities, |criteriaWeights|, nAlt) && k < |criteriaWeights|
    ensures var t := ScoreTerms(PriorityMatrix(priorities, nAlt), criteriaWeights);
      Sum(Column(t, k)) == criteriaWeights[k] * Sum(priorities[k])
  {
    var p := PriorityMatrix(priorities, nAlt);
    var t := ScoreTerms(p, criteriaWeights);
    var c := Column(t, k);
    forall i | 0 <= i < nAlt
      ensures c[i] == criteriaWeights[k] * priorities[k][i]
    {
      assert c[i] == WeightedTerms(criteriaWeights, p[i])[k];
    }
    SumScale(priorities[k], criteriaWeights[k], c);
  }

  /** The final scores add up to Σ_k w_k * ΣP_k. */
  lemma FinalScoresTotal(priorities: seq<seq<real>>, criteriaWeights: seq<real>, nAlt: nat)
    requires IsMatrix(priorities, |criteriaWeights|, nAlt)
    ensures Sum(FinalScores(PriorityMatrix(priorities, nAlt), criteriaWeights)) ==
      Sum(WeightedTerms(criteriaWeights, RowSums(priorities)))
  {
    var nCrit := |criteriaWeights|;
    var p := PriorityMatrix(priorities, nAlt);
    var t := ScoreTerms(p, criteriaWeights);
    var columns := ColumnSums(t, nCrit);
    forall k | 0 <= k < nCrit
      ensures columns[k] == WeightedTerms(criteriaWeights, RowSums(priorities))[k]
    {
      ScoreTermColumn(priorities, criteriaWeights, nAlt, k);
    }
    SumExt(columns, WeightedTerms(criteriaWeights, RowSums(priorities)));
    SumExchange(t, nCrit);
    SumExt(RowSums(t), FinalScores(p, criteriaWeights));
  }

  /** A weighted sum with non-negative weights and values is non-negative. */
  lemma WeightedSumNonNegative(w: seq<real>, row: seq<real>)
    requires |w| == |row|
    requires forall k :: 0 <= k < |w| ==> w[k] >= 0.0 && row[k] >= 0.0
    ensures WeightedSum(w, row) >= 0.0
  {
    var t := WeightedTerms(w, row);
    forall k | 0 <= k < |w|
      ensures t[k] >= 0.0
    {
      assert t[k] == w[k] * row[k];
    }
    SumNonNegative(t);
  }

  /** When every priority vector and the criteria weights are distributions,
      so are the final scores, and each score lies in [0, 1]. */
  lemma FinalScoresDistribution(priorities: seq<seq<real>>, criteriaWeights: seq<real>, nAlt: nat)
    requires IsMatrix(priorities, |criteriaWeights|, nAlt)
    requires Distribution(criteriaWeights)
    requires forall k :: 0 <= k < |priorities| ==> Distribution(priorities[k])
    ensures var s := FinalScores(PriorityMatrix(priorities, nAlt), criteriaWeights);
      Distribution(s) && forall i :: 0 <= i < |s| ==> s[i] <= 1.0
  {
    var p := PriorityMatrix(priorities, nAlt);
    var s := FinalScores(p, criteriaWeights);
    FinalScoresTotal(priorities, criteriaWeights, nAlt);
    var weighted := WeightedTerms(criteriaWeights, RowSums(priorities));
    forall k | 0 <= k < |criteriaWeights|
      ensures weighted[k] == criteriaWeights[k]
    {
      assert RowSums(priorities)[k] == 1.0;
    }
    SumExt(weighted, criteriaWeights);
    forall i | 0 <= i < nAlt
      ensures s[i] >= 0.0
    {
      forall k | 0 <= k < |criteriaWeights|
        ensures p[i][k] >= 0.0
      {
        assert p[i][k] == priorities[k][i];
      }
      WeightedSumNonNegative(criteriaWeights, p[i]);
    }
    forall i | 0 <= i < nAlt
      ensures s[i] <= 1.0
    {
      TermAtMostSum(s, i);
    }
  }

  /** Any two-item pairwise matrix is consistent: it is built from the
      values (m[0][1], 1). */
  lemma TwoItemsConsistent(judgments: seq<seq<real>>)
    requires |judgments| == 2 && IsMatrix(judgments, 2, 2)
    ensures var m := PairwiseMatrix(judgments);
      IsConsistentMatrix(m, [m[0][1], 1.0])
  {
    var m := PairwiseMatrix(judgments);
    PairwiseReciprocal(judgments, 0, 1);
    SelfRatio(m[0][1]);
    assert m[0][1] / 1.0 == m[0][1];
    assert m[1][0] == 1.0 / m[0][1] by {
      PairwiseReciprocal(judgments, 1, 0);
      ReciprocalProduct(m[0][1]);
    }
  }

  /** So for two items the weights are m[0][1] / (m[0][1] + 1) and
      1 / (m[0][1] + 1), λmax is 2 and CR is 0. */
  lemma TwoItemsAnalysis(judgments: seq<seq<real>>)
    requires |judgments| == 2 && IsMatrix(judgments, 2, 2)
    ensures var m := PairwiseMatrix(judgments);
      var a := Analyze(m);
      a.weights == [m[0][1] / (m[0][1] + 1.0), 1.0 / (m[0][1] + 1.0)] &&
      a.lambdaMax == 2.0 && a.cr == 0.0
  {
    var m := PairwiseMatrix(judgments);
    var v := [m[0][1], 1.0];
    TwoItemsConsistent(judgments);
    ConsistentMatrixAnalysis(m, v);
    calc {
      Sum(v);
      Sum(v[..1]) + v[1];
      { assert v[..1][..0] == []; }
      0.0 + v[0] + v[1];
    }
  }

  /** The engine applied to the pairwise matrix built from some judgments:
      whatever the judgments, its weights form a distribution of positive values. */
  function AnalyzeJudgments(judgments: seq<seq<real>>): (a: Analysis)
    requires |judgments| >= 1 && IsMatrix(judgments, |judgments|, |judgments|)
    ensures |a.weights| == |judgments| && Distribution(a.weights)
    ensures forall i :: 0 <= i < |judgments| ==> 0.0 < a.weights[i] <= 1.0
  {
    PairwiseWeights(judgments);
    Analyze(PairwiseMatrix(judgments))
  }

  /** One matrix of the screen: built from its judgments, then analysed. */
  method AnalyzeScreenMatrix(judgments: seq<seq<real>>) returns (a: Analysis)
    requires |judgments| >= 1 && IsMatrix(judgments, |judgments|, |judgments|)
    ensures a == AnalyzeJudgments(judgments)
    ensures |a.weights| == |judgments| && Distribution(a.weights)
  {
    var m := BuildPairwise(judgments);
    a := Analyze(m);
  }

  /** Step 2 of the screen: each criterion's alternatives matrix is built
      and analysed in turn, and its weights are appended to the priority vectors. */
  method AnalyzeAlternatives(alternativeJudgments: seq<seq<seq<real>>>, nAlt: nat)
    returns (priorities: seq<seq<real>>)
    requires nAlt >= 1
    requires forall k :: 0 <= k < |alternativeJudgments| ==>
      |alternativeJudgments[k]| == nAlt && IsMatrix(alternativeJudgments[k], nAlt, nAlt)
    ensures IsMatrix(priorities, |alternativeJudgments|, nAlt)
    ensures forall k :: 0 <= k < |alternativeJudgments| ==> priorities[k] == AnalyzeJudgments(alternativeJudgments[k]).weights
    ensures forall k :: 0 <= k < |alternativeJudgments| ==> Distribution(priorities[k])
  {
    priorities := [];
    for k := 0 to |alternativeJudgments|
      invariant |priorities| == k
      invariant forall a :: 0 <= a < k ==> priorities[a] == AnalyzeJudgments(alternativeJudgments[a]).weights
    {
      var analysis := AnalyzeScreenMatrix(alternativeJudgments[k]);
      priorities := priorities + [analysis.weights];
    }
  }

  /** The computation behind the AHP screen: the criteria matrix and one
      alternatives matrix per criterion are built from the judgments and
      analysed, each alternatives weight vector becomes a column of the
      priority matrix, and the final scores combine it with the criteria
      weights. Whatever the judgments, the scores are non-negative, at most 1,
      and sum to 1. */
  method Evaluate(criteriaJudgments: seq<seq<real>>, alternativeJudgments: seq<seq<seq<real>>>, nAlt: nat)
    returns (criteria: Analysis, priorities: seq<seq<real>>, p: seq<seq<real>>, scores: seq<real>)
    requires |criteriaJudgments| >= 1 && IsMatrix(criteriaJudgments, |criteriaJudgments|, |criteriaJudgments|)
    requires nAlt >= 1 && |alternativeJudgments| == |criteriaJudgments|
    requires forall k :: 0 <= k < |alternativeJudgments| ==>
      |alternativeJudgments[k]| == nAlt && IsMatrix(alternativeJudgments[k], nAlt, nAlt)
    ensures criteria == AnalyzeJudgments(criteriaJudgments)
    ensures IsMatrix(priorities, |alternativeJudgments|, nAlt)
    ensures forall k :: 0 <= k < |alternativeJudgments| ==> priorities[k] == AnalyzeJudgments(alternativeJudgments[k]).weights
    ensures p == PriorityMatrix(priorities, nAlt)
    ensures scores == FinalScores(p, criteria.weights)
    ensures |scores| == nAlt && Distribution(scores)
    ensures forall i :: 0 <= i < nAlt ==> 0.0 <= scores[i] <= 1.0
  {
    criteria := AnalyzeScreenMatrix(criteriaJudgments);
    priorities := AnalyzeAlternatives(alternativeJudgments, nAlt);
    p, scores := Aggregate(priorities, criteria.weights, nAlt);
    FinalScoresDistribution(priorities, criteria.weights, nAlt);
  }
}
