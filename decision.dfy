/** The decision matrix shared by SAW, WP and TOPSIS: one row per
    alternative, one column per criterion, and per criterion a weight and a
    direction. */
module Decision {
  import opened Numeric

  /** Whether a higher (Benefit) or a lower (Cost) value of a criterion is better. */
  datatype Direction = Benefit | Cost

  /** At least one alternative, every row with one value per criterion, and one
      weight and one direction per criterion. The routines index `data[0]` and
      take `max`/`min` over each column, so they need a first row. */
  predicate WellFormed(data: seq<seq<real>>, weights: seq<real>, dirs: seq<Direction>)
  {
    |data| >= 1 && IsMatrix(data, |data|, |dirs|) && |weights| == |dirs|
  }

  /** Every cell of the matrix is at least zero (the input screens' minimum). */
  predicate NonNegative(m: seq<seq<real>>)
  {
    forall i, j :: 0 <= i < |m| && 0 <= j < |m[i]| ==> m[i][j] >= 0.0
  }

  /** Every cell of the matrix is strictly positive. */
  predicate Positive(m: seq<seq<real>>)
  {
    forall i, j :: 0 <= i < |m| && 0 <= j < |m[i]| ==> m[i][j] > 0.0
  }

  /** Every weight is at least zero. */
  predicate NonNegativeWeights(weights: seq<real>)
  {
    forall j :: 0 <= j < |weights| ==> weights[j] >= 0.0
  }

  /** The advisory shown on the SAW, WP and TOPSIS screens: the weights are more
      than 0.01 away from summing to one. It only selects a message. */
  predicate WeightSumWarning(weights: seq<real>): (warn: bool)
    ensures warn <==> Sum(weights) < 0.99 || Sum(weights) > 1.01
  {
    var deviation := Sum(weights) - 1.0;
    (if deviation >= 0.0 then deviation else -deviation) > 0.01
  }
}
