/** Weighted Product: Cost weights are negated, each alternative's S is the
    product of its values raised to the adjusted weights, and V is each S as a
    share of the total. */
module WeightedProduct {
  import opened Numeric
  import opened Decision

  /** What the model assumes of the floating-point power `x ** e` it is given:
      a positive base raised to any exponent is positive. Nothing else about
      its values is used. */
  ghost predicate PowPositive(pow: (real, real) -> real)
  {
    forall x, e :: x > 0.0 ==> pow(x, e) > 0.0
  }

  /** The exponent used for one criterion: negated for Cost. */
  function AdjustedWeight(w: real, d: Direction): real
  {
    match d
    case Cost => -w
    case Benefit => w
  }

  /** The adjusted weight vector w'. */
  function AdjustedWeights(weights: seq<real>, dirs: seq<Direction>): (a: seq<real>)
    requires |weights| == |dirs|
    ensures |a| == |dirs| && forall j :: 0 <= j < |dirs| ==> a[j] == AdjustedWeight(weights[j], dirs[j])
  {
    seq(|dirs|, j requires 0 <= j < |dirs| => AdjustedWeight(weights[j], dirs[j]))
  }

  /** The factors x_j ** w'_j of one alternative's product. */
  function Factors(row: seq<real>, adjusted: seq<real>, pow: (real, real) -> real): (f: seq<real>)
    requires |row| == |adjusted|
    ensures |f| == |row| && forall j :: 0 <= j < |row| ==> f[j] == pow(row[j], adjusted[j])
  {
    seq(|row|, j requires 0 <= j < |row| => pow(row[j], adjusted[j]))
  }

  /** S_i = Π_j x_ij ** w'_j. */
  function RowProduct(row: seq<real>, adjusted: seq<real>, pow: (real, real) -> real): real
    requires |row| == |adjusted|
  {
    Product(Factors(row, adjusted, pow))
  }

  /** The vector S, one product per alternative. */
  function Products(data: seq<seq<real>>, adjusted: seq<real>, pow: (real, real) -> real): (s: seq<real>)
    requires IsMatrix(data, |data|, |adjusted|)
    ensures |s| == |data| && forall i :: 0 <= i < |data| ==> s[i] == RowProduct(data[i], adjusted, pow)
  {
    seq(|data|, i requires 0 <= i < |data| => RowProduct(data[i], adjusted, pow))
  }

  /** The vector V: each S divided by the total of S, or 0 when the total is
      not positive. With a positive total, V scaled back by the total is S. */
  function Shares(s: seq<real>): (v: seq<real>)
    ensures |v| == |s|
    ensures Sum(s) > 0.0 ==> forall i :: 0 <= i < |s| ==> v[i] * Sum(s) == s[i]
    ensures Sum(s) <= 0.0 ==> forall i :: 0 <= i < |s| ==> v[i] == 0.0
  {
    var total := Sum(s);
    seq(|s|, i requires 0 <= i < |s| => if total > 0.0 then s[i] / total else 0.0)
  }

  /** The WP routine: builds w' and S in loops, then V from the total of S. */
  method Compute(data: seq<seq<real>>, weights: seq<real>, dirs: seq<Direction>, pow: (real, real) -> real)
    returns (adjusted: seq<real>, s: seq<real>, v: seq<real>)
    requires WellFormed(data, weights, dirs)
    ensures |adjusted| == |dirs|
    ensures forall j :: 0 <= j < |dirs| ==> adjusted[j] == if dirs[j] == Cost then -weights[j] else weights[j]
    ensures s == Products(data, adjusted, pow)
    ensures v == Shares(s)
  {
    var nAlt, nCrit := |data|, |dirs|;
    ghost var exponents := AdjustedWeights(weights, dirs);
    adjusted := [];
    for j := 0 to nCrit
      invariant adjusted == exponents[..j]
    {
      assert exponents[..j + 1] == exponents[..j] + [exponents[j]];
      if dirs[j] == Cost {
        adjusted := adjusted + [-weights[j]];
      } else {
        adjusted := adjusted + [weights[j]];
      }
    }
    assert exponents[..nCrit] == exponents;

    ghost var products := Products(data, adjusted, pow);
    s := [];
    for i := 0 to nAlt
      invariant s == products[..i]
    {
      var p := MultiplyFactors(data[i], adjusted, pow);
      assert products[..i + 1] == products[..i] + [p];
      s := s + [p];
    }
    assert products[..nAlt] == products;

    v := Shares(s);
  }

  /** One alternative's S: starts from 1 and multiplies in x_j ** w'_j for each criterion. */
  method MultiplyFactors(row: seq<real>, adjusted: seq<real>, pow: (real, real) -> real) returns (p: real)
    requires |row| == |adjusted|
    ensures p == RowProduct(row, adjusted, pow)
  {
    ghost var factors := Factors(row, adjusted, pow);
    p := 1.0;
    for j := 0 to |row|
      invariant p == Product(factors[..j])
    {
      ProductStep(factors, j);
      p := p * pow(row[j], adjusted[j]);
    }
    assert factors[..|row|] == factors;
  }

  /** For a positive weight the exponent is negative exactly on Cost criteria. */
  lemma AdjustedWeightSign(w: real, d: Direction)
    requires w > 0.0
    ensures AdjustedWeight(w, d) < 0.0 <==> d == Cost
    ensures AdjustedWeight(w, d) == w || AdjustedWeight(w, d) == -w
  {
  }

  /** When the total of S is positive and every S is non-negative, each share
      lies in [0, 1], is S_i over the total, and the shares sum to 1. */
  lemma SharesOfPositiveTotal(s: seq<real>)
    requires Sum(s) > 0.0
    requires forall i :: 0 <= i < |s| ==> s[i] >= 0.0
    ensures |Shares(s)| == |s|
    ensures forall i :: 0 <= i < |s| ==> Shares(s)[i] == s[i] / Sum(s) && 0.0 <= Shares(s)[i] <= 1.0
    ensures Sum(Shares(s)) == 1.0
  {
    var total := Sum(s);
    var v := Shares(s);
    forall i | 0 <= i < |s|
      ensures 0.0 <= v[i] <= 1.0
    {
      TermAtMostSum(s, i);
      RatioInUnitInterval(s[i], total);
    }
    SumDivide(s, total, v);
    SelfRatio(total);
  }

  /** When the total of S is not positive, every share is 0. */
  lemma SharesOfNonPositiveTotal(s: seq<real>)
    requires Sum(s) <= 0.0
    ensures |Shares(s)| == |s|
    ensures forall i :: 0 <= i < |s| ==> Shares(s)[i] == 0.0
  {
  }

  /** Shares keep the order of S; with a positive total they keep strict order
      in both directions. */
  lemma SharesPreserveOrder(s: seq<real>, i: nat, k: nat)
    requires i < |s| && k < |s|
    ensures s[i] <= s[k] ==> Shares(s)[i] <= Shares(s)[k]
    ensures Sum(s) > 0.0 ==> (s[i] < s[k] <==> Shares(s)[i] < Shares(s)[k])
  {
    var total := Sum(s);
    if total > 0.0 {
      assert Shares(s)[i] * total == s[i];
      assert Shares(s)[k] * total == s[k];
      if s[i] <= s[k] {
        assert Shares(s)[i] * total <= Shares(s)[k] * total;
      }
      if Shares(s)[i] < Shares(s)[k] {
        assert Shares(s)[i] * total < Shares(s)[k] * total;
      }
    }
  }

  /** With every value positive and a power that keeps positive bases
      positive, every S is positive, so every share lies in (0, 1] and the
      shares sum to 1. */
  lemma SharesOfPositiveData(data: seq<seq<real>>, weights: seq<real>, dirs: seq<Direction>, pow: (real, real) -> real)
    requires WellFormed(data, weights, dirs) && Positive(data) && PowPositive(pow)
    ensures var v := Shares(Products(data, AdjustedWeights(weights, dirs), pow));
      |v| == |data| && Sum(v) == 1.0 && forall i :: 0 <= i < |data| ==> 0.0 < v[i] <= 1.0
  {
    var adjusted := AdjustedWeights(weights, dirs);
    var s := Products(data, adjusted, pow);
    forall i | 0 <= i < |data|
      ensures s[i] > 0.0
    {
      ProductPositive(Factors(data[i], adjusted, pow));
    }
    SumPositive(s);
    SharesOfPositiveTotal(s);
    forall i | 0 <= i < |data|
      ensures Shares(s)[i] > 0.0
    {
      RatioPositive(s[i], Sum(s));
    }
  }
}
