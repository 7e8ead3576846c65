/** The AHP weight engine: from a square pairwise-comparison matrix, the
    column-normalised matrix, the priority weights (row averages of it), the
    principal-eigenvalue estimate λmax, and the consistency index and ratio. */
module Ahp {
  import opened Numeric

  /** A non-empty square matrix; the engine divides by its size. */
  predicate IsSquare(m: seq<seq<real>>)
  {
    |m| >= 1 && IsMatrix(m, |m|, |m|)
  }

  /** Every entry of the matrix is positive. */
  predicate AllPositive(m: seq<seq<real>>)
  {
    forall i, j :: 0 <= i < |m| && 0 <= j < |m[i]| ==> m[i][j] > 0.0
  }

  /** Each entry divided by its column sum; a column whose sum is not positive gives zeros. */
  function NormalizedMatrix(m: seq<seq<real>>): (r: seq<seq<real>>)
    requires IsSquare(m)
    ensures IsMatrix(r, |m|, |m|)
  {
    var n := |m|;
    var sums := ColumnSums(m, n);
    seq(n, i requires 0 <= i < n =>
      seq(n, j requires 0 <= j < n => if sums[j] > 0.0 then m[i][j] / sums[j] else 0.0))
  }

  /** The priority weights: the average of each row of the normalised matrix. */
  function PriorityWeights(m: seq<seq<real>>): (w: seq<real>)
    requires IsSquare(m)
    ensures |w| == |m|
  {
    var n := |m|;
    var norm := NormalizedMatrix(m);
    seq(n, i requires 0 <= i < n => Sum(norm[i]) / n as real)
  }

  /** λ_i: row i of M times the weights, divided by weight i (0 when that weight is not positive). */
  function LambdaValues(m: seq<seq<real>>, w: seq<real>): (l: seq<real>)
    requires IsSquare(m) && |w| == |m|
    ensures |l| == |m|
  {
    var n := |m|;
    seq(n, i requires 0 <= i < n => if w[i] > 0.0 then WeightedSum(w, m[i]) / w[i] else 0.0)
  }

  /** λmax, the average of the λ_i: n times λmax is their total. */
  function LambdaMax(m: seq<seq<real>>): (l: real)
    requires IsSquare(m)
    ensures l * |m| as real == Sum(LambdaValues(m, PriorityWeights(m)))
  {
    var total, n := Sum(LambdaValues(m, PriorityWeights(m))), |m| as real;
    QuotientTimes(total, n);
    total / n
  }

  /** λmax lies between the smallest and the largest λ_i. */
  lemma LambdaMaxBetween(m: seq<seq<real>>)
    requires IsSquare(m)
    ensures var lambdas := LambdaValues(m, PriorityWeights(m));
      Min(lambdas) <= LambdaMax(m) <= Max(lambdas)
  {
    AverageBetween(LambdaValues(m, PriorityWeights(m)));
  }

  /** CI = (λmax - n) / (n - 1), and 0 for a single item: it has the sign of
      λmax - n, and vanishes exactly when λmax = n. */
  function ConsistencyIndex(lambdaMax: real, n: nat): (ci: real)
    ensures n <= 1 ==> ci == 0.0
    ensures n > 1 ==> ci * (n - 1) as real == lambdaMax - n as real
    ensures n > 1 ==> (ci == 0.0 <==> lambdaMax == n as real)
    ensures n > 1 ==> (ci > 0.0 <==> lambdaMax > n as real)
  {
    if n > 1 then (lambdaMax - n as real) / (n - 1) as real else 0.0
  }

  /** Saaty's Random Index for sizes 1 to 10, and 1.49 for any other size:
      0 for one or two items, and between 0.58 and 1.49 for every other size. */
  function RandomIndex(n: nat): (ri: real)
    ensures 1 <= n <= 2 ==> ri == 0.0
    ensures !(1 <= n <= 2) ==> 0.58 <= ri <= 1.49
  {
    if n == 1 || n == 2 then 0.0
    else if n == 3 then 0.58
    else if n == 4 then 0.9
    else if n == 5 then 1.12
    else if n == 6 then 1.24
    else if n == 7 then 1.32
    else if n == 8 then 1.41
    else if n == 9 then 1.45
    else 1.49
  }

  /** CR = CI / RI, and 0 when RI is not positive. With a positive RI the
      matrix counts as consistent exactly when CI is at most a tenth of RI. */
  function ConsistencyRatio(ci: real, ri: real): (cr: real)
    ensures ri <= 0.0 ==> cr == 0.0
    ensures ri > 0.0 ==> cr * ri == ci
    ensures ri > 0.0 ==> (AcceptablyConsistent(cr) <==> ci <= 0.1 * ri)
  {
    if ri > 0.0 then ci / ri else 0.0
  }

  /** Everything the engine reports for one pairwise matrix. */
  datatype Analysis = Analysis(normalized: seq<seq<real>>, weights: seq<real>, lambdaMax: real, ci: real, cr: real)

  /** The AHP engine applied to one pairwise-comparison matrix: an n × n
      normalised matrix, one weight per item, and a CR that is 0 for one or
      two items and otherwise accepts the matrix exactly when CI ≤ RI / 10. */
  function Analyze(m: seq<seq<real>>): (a: Analysis)
    requires IsSquare(m)
    ensures IsMatrix(a.normalized, |m|, |m|) && |a.weights| == |m|
    ensures |m| > 1 ==> (a.ci > 0.0 <==> a.lambdaMax > |m| as real)
    ensures |m| <= 2 ==> a.cr == 0.0
    ensures |m| >= 3 ==> (AcceptablyConsistent(a.cr) <==> a.ci <= 0.1 * RandomIndex(|m|))
  {
    var n := |m|;
    var lambdaMax := LambdaMax(m);
    var ci := ConsistencyIndex(lambdaMax, n);
    Analysis(NormalizedMatrix(m), PriorityWeights(m), lambdaMax, ci, ConsistencyRatio(ci, RandomIndex(n)))
  }

  /** The advisory classification on the AHP screen: CR of at most 0.1 is consistent. */
  predicate AcceptablyConsistent(cr: real)
  {
    cr <= 0.1
  }

  /** Each column of the normalised matrix whose column sum is positive sums to 1;
      a column whose sum is not positive is all zeros. */
  lemma NormalizedColumns(m: seq<seq<real>>, j: nat)
    requires IsSquare(m) && j < |m|
    ensures var sum := Sum(Column(m, j));
      var col := Column(NormalizedMatrix(m), j);
      (sum > 0.0 ==> Sum(col) == 1.0) &&
      (sum <= 0.0 ==> forall i :: 0 <= i < |m| ==> col[i] == 0.0)
  {
    var sum := Sum(Column(m, j));
    var col := Column(NormalizedMatrix(m), j);
    if sum > 0.0 {
      SumDivide(Column(m, j), sum, col);
      SelfRatio(sum);
    }
  }

  /** In a matrix of positive entries each normalised entry lies in (0, 1]. */
  lemma NormalizedEntriesOfPositive(m: seq<seq<real>>, i: nat, j: nat)
    requires IsSquare(m) && AllPositive(m) && i < |m| && j < |m|
    ensures 0.0 < NormalizedMatrix(m)[i][j] <= 1.0
    ensures Sum(Column(m, j)) > 0.0
  {
    var col := Column(m, j);
    SumPositive(col);
    TermAtMostSum(col, i);
    RatioInUnitInterval(col[i], Sum(col));
    assert m[i][j] / Sum(col) * Sum(col) == m[i][j];
  }

  /** For a matrix of positive entries every weight lies in (0, 1]. */
  lemma WeightOfPositiveInUnitInterval(m: seq<seq<real>>, i: nat)
    requires IsSquare(m) && AllPositive(m) && i < |m|
    ensures 0.0 < PriorityWeights(m)[i] <= 1.0
  {
    var n := |m|;
    var row := NormalizedMatrix(m)[i];
    forall j | 0 <= j < n
      ensures 0.0 < row[j] <= 1.0
    {
      NormalizedEntriesOfPositive(m, i, j);
    }
    AverageInUnitInterval(row);
  }

  /** For a matrix of positive entries every column of the normalised matrix sums to 1. */
  lemma NormalizedColumnsOfPositive(m: seq<seq<real>>)
    requires IsSquare(m) && AllPositive(m)
    ensures forall j :: 0 <= j < |m| ==> ColumnSums(NormalizedMatrix(m), |m|)[j] == 1.0
  {
    forall j | 0 <= j < |m|
      ensures ColumnSums(NormalizedMatrix(m), |m|)[j] == 1.0
    {
      NormalizedEntriesOfPositive(m, 0, j);
      NormalizedColumns(m, j);
    }
  }

  /** For a matrix of positive entries the weights sum to 1. */
  lemma WeightsOfPositiveSumToOne(m: seq<seq<real>>)
    requires IsSquare(m) && AllPositive(m)
    ensures Sum(PriorityWeights(m)) == 1.0
  {
    var n := |m|;
    var norm := NormalizedMatrix(m);
    var columns := ColumnSums(norm, n);
    var rows := RowSums(norm);
    NormalizedColumnsOfPositive(m);
    SumConstant(columns, 1.0);
    assert Sum(columns) == n as real;
    SumExchange(norm, n);
    assert Sum(rows) == n as real;
    SumDivide(rows, n as real, PriorityWeights(m));
    SelfRatio(n as real);
  }

  /** A perfectly consistent matrix, M[i][j] = v_i / v_j for a positive vector v. */
  predicate IsConsistentMatrix(m: seq<seq<real>>, v: seq<real>)
  {
    IsSquare(m) && |v| == |m| &&
    (forall i :: 0 <= i < |v| ==> v[i] > 0.0) &&
    forall i, j :: 0 <= i < |m| && 0 <= j < |m| ==> m[i][j] == v[i] / v[j]
  }

  /** In a consistent matrix column j sums to Σv / v_j. */
  lemma ConsistentColumnSum(m: seq<seq<real>>, v: seq<real>, j: nat)
    requires IsConsistentMatrix(m, v) && j < |m|
    ensures Sum(Column(m, j)) == Sum(v) / v[j]
  {
    SumDivide(v, v[j], Column(m, j));
  }

  /** In a consistent matrix every normalised entry of row i is v_i / Σv. */
  lemma ConsistentNormalized(m: seq<seq<real>>, v: seq<real>, i: nat, j: nat)
    requires IsConsistentMatrix(m, v) && i < |m| && j < |m|
    ensures Sum(v) > 0.0
    ensures NormalizedMatrix(m)[i][j] == v[i] / Sum(v)
  {
    SumPositive(v);
    ConsistentColumnSum(m, v, j);
    RatioPositive(Sum(v), v[j]);
    RatioOfRatios(v[i], v[j], Sum(v));
  }

  /** In a consistent matrix weight i is v_i / Σv. */
  lemma ConsistentWeight(m: seq<seq<real>>, v: seq<real>, i: nat)
    requires IsConsistentMatrix(m, v) && i < |m|
    ensures Sum(v) > 0.0
    ensures PriorityWeights(m)[i] == v[i] / Sum(v)
  {
    SumPositive(v);
    var row := NormalizedMatrix(m)[i];
    var x := v[i] / Sum(v);
    forall j | 0 <= j < |m|
      ensures row[j] == x
    {
      ConsistentNormalized(m, v, i, j);
    }
    AverageOfConstant(row, x);
  }

  /** In a consistent matrix the weights are v normalised to sum 1. */
  lemma ConsistentWeights(m: seq<seq<real>>, v: seq<real>)
    requires IsConsistentMatrix(m, v)
    ensures Sum(v) > 0.0
    ensures forall i :: 0 <= i < |m| ==> PriorityWeights(m)[i] == v[i] / Sum(v)
  {
    ConsistentWeight(m, v, 0);
    forall i | 0 <= i < |m|
      ensures PriorityWeights(m)[i] == v[i] / Sum(v)
    {
      ConsistentWeight(m, v, i);
    }
  }

  /** In a consistent matrix every term of row i times the weights is v_i / Σv. */
  lemma ConsistentWeightedTerms(m: seq<seq<real>>, v: seq<real>, i: nat)
    requires IsConsistentMatrix(m, v) && i < |m|
    ensures Sum(v) > 0.0
    ensures forall j :: 0 <= j < |m| ==> WeightedTerms(PriorityWeights(m), m[i])[j] == v[i] / Sum(v)
  {
    ConsistentWeights(m, v);
    SharesTimesRatios(PriorityWeights(m), m[i], v, i, Sum(v));
  }

  /** In a consistent matrix every λ_i equals the size of the matrix. */
  lemma ConsistentLambda(m: seq<seq<real>>, v: seq<real>, i: nat)
    requires IsConsistentMatrix(m, v) && i < |m|
    ensures LambdaValues(m, PriorityWeights(m))[i] == |m| as real
  {
    var w := PriorityWeights(m);
    ConsistentWeights(m, v);
    ConsistentWeightedTerms(m, v, i);
    RatioPositive(v[i], Sum(v));
    ConstantSumOverTerm(WeightedTerms(w, m[i]), v[i] / Sum(v));
  }

  /** When λmax equals the size, CI is 0 and so is CR whatever the random index. */
  lemma ExactLambdaIsConsistent(n: nat)
    ensures ConsistencyIndex(n as real, n) == 0.0
    ensures ConsistencyRatio(ConsistencyIndex(n as real, n), RandomIndex(n)) == 0.0
  {
  }

  /** In a consistent matrix λmax equals the size of the matrix. */
  lemma ConsistentLambdaMax(m: seq<seq<real>>, v: seq<real>)
    requires IsConsistentMatrix(m, v)
    ensures LambdaMax(m) == |m| as real
  {
    var lambdas := LambdaValues(m, PriorityWeights(m));
    forall i | 0 <= i < |m|
      ensures lambdas[i] == |m| as real
    {
      ConsistentLambda(m, v, i);
    }
    AverageOfConstant(lambdas, |m| as real);
  }

  /** For a perfectly consistent matrix the weights are v normalised to sum 1,
      λmax equals the size, and CI and CR are 0, so the matrix is classified
      as consistent. */
  lemma ConsistentMatrixAnalysis(m: seq<seq<real>>, v: seq<real>)
    requires IsConsistentMatrix(m, v)
    ensures Sum(v) > 0.0
    ensures forall i :: 0 <= i < |m| ==> Analyze(m).weights[i] == v[i] / Sum(v)
    ensures Analyze(m).lambdaMax == |m| as real
    ensures Analyze(m).ci == 0.0 && Analyze(m).cr == 0.0 && AcceptablyConsistent(Analyze(m).cr)
  {
    ConsistentWeights(m, v);
    ConsistentLambdaMax(m, v);
    ExactLambdaIsConsistent(|m|);
  }

  /** The random index is 0 for one or two items, positive from three items
      on, 1.49 from ten items on, and never decreases as the size grows. */
  lemma RandomIndexTable(a: nat, b: nat)
    requires 1 <= a <= b
    ensures a <= 2 ==> RandomIndex(a) == 0.0
    ensures a >= 3 ==> RandomIndex(a) > 0.0
    ensures a >= 10 ==> RandomIndex(a) == 1.49
    ensures RandomIndex(a) <= RandomIndex(b)
  {
  }

  /** A matrix of one or two items always has CR = 0, so it is classified as
      consistent; from three items on CR is CI divided by the random index. */
  lemma RatioBySize(m: seq<seq<real>>)
    requires IsSquare(m)
    ensures |m| <= 2 ==> Analyze(m).cr == 0.0 && AcceptablyConsistent(Analyze(m).cr)
    ensures |m| == 1 ==> Analyze(m).ci == 0.0
    ensures |m| >= 3 ==> Analyze(m).cr == Analyze(m).ci / RandomIndex(|m|)
  {
    RandomIndexTable(|m|, |m|);
  }
}
