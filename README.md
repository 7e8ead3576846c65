# Verified model of the AplikasiSPK decision engine

AplikasiSPK is a small decision-support application. For a set of
alternatives judged against weighted criteria, it ranks the alternatives by
one of four methods:

- **SAW**, Simple Additive Weighting;
- **WP**, Weighted Product;
- **AHP**, Analytic Hierarchy Process;
- **TOPSIS**, closeness to the ideal solution.

This project models the computational core of `app.py` in Dafny:

- the four routines `hitung_saw_manual`, `hitung_wp_manual`, `hitung_ahp_manual` and `hitung_topsis_manual`;
- the AHP screen's construction of reciprocal pairwise matrices from the judgments entered above the diagonal;
- the AHP screen's analysis of the criteria matrix and of one alternatives matrix per criterion;
- the AHP screen's aggregation of the priority vectors into final scores;
- the result table every screen shows: sorted by score, highest first, and ranked 1..n.

The project proves what these computations promise:

- shapes;
- bounds in [0, 1];
- sums equal to 1;
- the zero-divisor guards;
- the reciprocal structure of pairwise matrices;
- the exact behaviour of AHP on perfectly consistent matrices;
- that a result table is a descending permutation of the scores;
- that SAW gives the same preferences whatever order the criteria are entered in.

Modules, one file each:

| file | module | what it holds |
|---|---|---|
| `numeric.dfy` | `Numeric` | Python's `sum`, `max`, `min`, products and matrix columns over `real`, reordering by a permutation, and the summation and ratio facts the proofs share |
| `decision.dfy` | `Decision` | the Benefit/Cost direction, the shape of a decision matrix, and the weight-sum advisory |
| `saw.dfy` | `Saw` | SAW: normalisation and weighted sums, as loops proved against specification functions |
| `weighted_product.dfy` | `WeightedProduct` | WP: adjusted weights, products S and shares V |
| `ahp.dfy` | `Ahp` | the AHP engine: normalised matrix, weights, λmax, CI, the random index and CR |
| `ahp_screen.dfy` | `AhpScreen` | pairwise construction, per-criterion analysis and final-score aggregation |
| `topsis.dfy` | `Topsis` | TOPSIS: vector normalisation, weighting, ideals, distances and closeness |
| `ranking.dfy` | `Ranking` | sorting the scores highest first and numbering the rows |

How the model is built:

- A matrix is a `seq<seq<real>>`; `real` stands in for Python's `float`.
- The routines that fill lists in loops are `method`s with loops whose `ensures` tie the result to a specification function. These are SAW, WP, the TOPSIS normalisation, ideals and separations, the pairwise construction, the aggregation and the ranking.
- The specification functions are what the lemmas talk about.
- `hitung_ahp_manual` is built from comprehensions only, so it is modelled by functions: `Ahp.Analyze` and the functions it calls.
- The two floating-point operations with no exact counterpart are parameters:
  - `x ** 0.5` (TOPSIS) is a parameter `sqrt: real -> real`. Lemmas that need it assume only `Topsis.IsSqrt`: a non-negative argument has a non-negative square root whose square is the argument.
  - `x ** w` with a real exponent (WP) is a parameter `pow: (real, real) -> real`. Lemmas that need it assume only `WeightedProduct.PowPositive`: a positive base gives a positive power.

Two behaviours of the code that the model keeps as they are:

- **Tie order.** The code sorts with pandas `sort_values` in its default sort kind, which does not guarantee a stable sort (app.py:259, 325, 481 and 559). Equal scores may therefore come out in any order. `Ranking.RankingOf` promises a permutation sorted highest first with ranks 1..n, and nothing about the order of equal scores.
- **Cost columns.** A Cost cell equal to 0 normalises to 0, not to min / 0 (app.py:58). So when a Cost column's minimum is 0, the row holding that minimum gets 0 rather than 1. `Saw.CostCells` states both cases.

## Model

| member | source | states |
|---|---|---|
| Decision.WeightSumWarning | app.py:196 | the weight-sum warning `abs(sum - 1) > 0.01` (the same test at app.py:295 and 518) fires exactly when the total weight lies outside [0.99, 1.01] |
| Saw.Compute | app.py:35-69 | SAW returns the normalised matrix R and the preference vector of R |
| Saw.Normalize | app.py:47-58 | filling the zero-initialised R column by column, with x / max for Benefit (0 when max is not positive) and min / x for Cost (0 when x is not positive), yields exactly `Saw.Normalized` |
| Saw.NormalizeColumn | app.py:49-58 | one column pass fills column j with the direction's guarded ratio against the column maximum (Benefit) or minimum (Cost) and leaves every other column of R unchanged |
| Saw.Normalized | app.py:47-58 | R has the data's n_alt × n_krit shape, and each cell is the direction's guarded ratio |
| Saw.Score | app.py:62-67 | the running accumulator per row yields V_i = Σ_j w_j · r_ij for every alternative |
| Saw.Preferences | app.py:62-67 | V has one entry per alternative, each the weighted sum of that alternative's row of R |
| Saw.NormalizedInUnitInterval | app.py:47-58 | with non-negative data every r_ij lies in [0, 1], in Benefit and Cost columns alike |
| Saw.BenefitMaximumIsOne | app.py:51-54 | in a Benefit column with a positive maximum, a row holding the maximum gets 1 |
| Saw.BenefitZeroColumn | app.py:51-54 | an all-zero Benefit column normalises to all zeros |
| Saw.CostCells | app.py:55-58 | in a Cost column a zero cell gets 0, and a positive cell holding the column minimum gets 1 |
| Saw.PreferenceBounds | app.py:62-67 | with non-negative data and weights, 0 ≤ V_i ≤ Σ_j w_j |
| Saw.NormalizedUnderReordering | app.py:47-58 | when the criteria are entered in another order, each criterion's normalised column moves with it unchanged, because its maximum or minimum is taken over that column alone |
| Saw.TermsUnderReordering | app.py:62-65 | reordering a row and its weights the same way reorders the terms w_j · r_ij and nothing else |
| Saw.PreferencesUnderReordering | app.py:35-69 | entering the criteria in any other order, with their weights and directions moved along, leaves every preference V_i unchanged |
| WeightedProduct.Compute | app.py:71-95 | w' has one entry per criterion, −w_j for Cost and w_j for Benefit; S is the vector of row products; V is the vector of shares of S |
| WeightedProduct.Shares | app.py:92-93 | V has one entry per alternative; with a positive total each V_i times the total gives back S_i, and with a total of 0 or less every V_i is 0 |
| WeightedProduct.MultiplyFactors | app.py:86-88 | starting from 1 and multiplying in x_j ** w'_j, criterion by criterion, gives the row's product Π_j x_j ** w'_j |
| WeightedProduct.AdjustedWeights | app.py:76-81 | w' has one entry per criterion, the weight negated exactly for Cost criteria |
| WeightedProduct.Products | app.py:84-89 | S has one product per alternative |
| WeightedProduct.AdjustedWeightSign | app.py:77-81 | for a positive weight the exponent is negative exactly on Cost criteria, and it is ±w |
| WeightedProduct.SharesOfPositiveTotal | app.py:92-93 | when ΣS > 0 and every S_i ≥ 0, V_i = S_i / ΣS, each V_i lies in [0, 1], and ΣV = 1 |
| WeightedProduct.SharesOfNonPositiveTotal | app.py:92-93 | when ΣS ≤ 0, every V_i is 0 |
| WeightedProduct.SharesPreserveOrder | app.py:93 | S_i ≤ S_k implies V_i ≤ V_k; when ΣS > 0, S_i < S_k holds exactly when V_i < V_k |
| WeightedProduct.SharesOfPositiveData | app.py:84-93 | with positive data and a power that keeps positive bases positive, every V_i lies in (0, 1] and ΣV = 1 |
| Ahp.NormalizedMatrix | app.py:102-104 | the normalised matrix is n × n like the input |
| Ahp.PriorityWeights | app.py:107 | there is one weight per item |
| Ahp.LambdaValues | app.py:110-111 | there is one λ_i per item |
| Ahp.LambdaMax | app.py:112 | λmax is the average of the λ_i: n · λmax equals their total |
| Ahp.LambdaMaxBetween | app.py:112 | λmax lies between the smallest and the largest λ_i |
| Ahp.ConsistencyIndex | app.py:115 | CI is 0 for one item; for more items (n − 1) · CI = λmax − n, so CI is 0 exactly when λmax = n and positive exactly when λmax > n |
| Ahp.RandomIndex | app.py:116-117 | RI is 0 for one or two items and between 0.58 and 1.49 for every other size, including the 1.49 fallback outside the table |
| Ahp.ConsistencyRatio | app.py:118 | CR is 0 when RI is not positive; otherwise CR · RI = CI, and CR ≤ 0.1 holds exactly when CI ≤ RI / 10 |
| Ahp.Analyze | app.py:97-120 | the engine returns an n × n normalised matrix and one weight per item; CI > 0 exactly when λmax > n (n > 1); CR = 0 for one or two items; from three items on the matrix counts as consistent exactly when CI ≤ RI / 10 |
| Ahp.AcceptablyConsistent | app.py:424-427 | the screen's test `CR <= 0.1` (the same test at app.py:448) that chooses between the consistent and the inconsistent message |
| Ahp.NormalizedColumns | app.py:102-104 | a normalised column whose column sum is positive sums to 1; a column whose sum is not positive becomes all zeros |
| Ahp.NormalizedEntriesOfPositive | app.py:102-104 | for a matrix of positive entries every column sum is positive and every normalised entry lies in (0, 1] |
| Ahp.NormalizedColumnsOfPositive | app.py:102-104 | for a matrix of positive entries every column of the normalised matrix sums to 1 |
| Ahp.WeightOfPositiveInUnitInterval | app.py:107 | for a matrix of positive entries every weight lies in (0, 1] |
| Ahp.WeightsOfPositiveSumToOne | app.py:102-107 | for a matrix of positive entries the weights sum to 1 |
| Ahp.ConsistentColumnSum | app.py:102 | for M[i][j] = v_i / v_j, column j sums to Σv / v_j |
| Ahp.ConsistentNormalized | app.py:103-104 | for a consistent matrix every normalised entry of row i is v_i / Σv |
| Ahp.ConsistentWeight | app.py:107 | for a consistent matrix weight i is v_i / Σv |
| Ahp.ConsistentWeights | app.py:107 | for a consistent matrix the weights are v normalised to sum 1 |
| Ahp.ConsistentWeightedTerms | app.py:110 | for a consistent matrix every term of row i times the weights is v_i / Σv |
| Ahp.ConsistentLambda | app.py:110-111 | for a consistent matrix every λ_i equals n |
| Ahp.ConsistentLambdaMax | app.py:112 | for a consistent matrix λmax = n |
| Ahp.ExactLambdaIsConsistent | app.py:115-118 | when λmax = n, CI = 0 and CR = 0 whatever the random index |
| Ahp.ConsistentMatrixAnalysis | app.py:97-120 | for a consistent matrix the engine reports weights v / Σv, λmax = n, CI = CR = 0, and the matrix is classified as consistent (CR ≤ 0.1) |
| Ahp.RandomIndexTable | app.py:116-117 | RI is 0 for one or two items, positive from three, 1.49 from ten on (the table's fallback), and never decreases with the size |
| Ahp.RatioBySize | app.py:115-118 | for one or two items CR = 0 and the matrix is classified as consistent; for one item CI = 0; from three items on CR = CI / RI |
| AhpScreen.PairwiseMatrix | app.py:360-373 | the built matrix is n × n, with the guarded judgment above the diagonal, its guarded reciprocal below, and 1 on the diagonal |
| AhpScreen.BuildPairwise | app.py:360-373 | starting from ones and writing (i, j) and (j, i) for every pair i < j in loop order yields exactly `AhpScreen.PairwiseMatrix`; the alternatives matrices are built the same way at app.py:385-398 |
| AhpScreen.PairwiseReciprocal | app.py:360-373 | a built matrix has a unit diagonal, positive entries, and M[i][j] · M[j][i] = 1 |
| AhpScreen.PairwiseFromJudgment | app.py:371-372 | a positive judgment v is stored as v and 1 / v; a judgment that is not positive is stored as 1 on both sides |
| AhpScreen.PairwisePositive | app.py:360-373 | every entry of a built matrix is positive |
| AhpScreen.PairwiseWeights | app.py:411 | whatever the judgments, the weights of a built matrix lie in (0, 1] and sum to 1 |
| AhpScreen.TwoItemsConsistent | app.py:360-373 | every built 2 × 2 matrix is consistent for the vector (M[0][1], 1) |
| AhpScreen.TwoItemsAnalysis | app.py:411 | for two items the weights are M[0][1] / (M[0][1] + 1) and 1 / (M[0][1] + 1), λmax = 2 and CR = 0 |
| AhpScreen.AnalyzeJudgments | app.py:411 | the engine's weights for a built matrix are a distribution (non-negative, sum 1) of values in (0, 1], one per item |
| AhpScreen.AnalyzeScreenMatrix | app.py:411 | building the matrix and then running the engine gives `AhpScreen.AnalyzeJudgments`, whose weights are a distribution |
| AhpScreen.AnalyzeAlternatives | app.py:431-435 | the loop over criteria collects, for each criterion, the weights of its alternatives matrix; each is a distribution of length n_alt |
| AhpScreen.PriorityMatrix | app.py:457-460 | the priority matrix is n_alt × n_krit and is the transpose of the priority vectors: P[i][k] = prioritas[k][i] |
| AhpScreen.FinalScores | app.py:467-470 | there is one score per alternative, score_i = Σ_k P[i][k] · w_k |
| AhpScreen.Aggregate | app.py:457-470 | the two loops build exactly the priority matrix and the final scores |
| AhpScreen.FinalScoresTotal | app.py:467-470 | the scores add up to Σ_k w_k · (Σ_i prioritas[k][i]) |
| AhpScreen.FinalScoresDistribution | app.py:457-470 | when the criteria weights and every priority vector are distributions, so are the final scores, each in [0, 1] |
| AhpScreen.Evaluate | app.py:406-470 | the whole calculation behind the AHP screen: whatever the judgments, the final scores are one per alternative, each in [0, 1], and they sum to 1 |
| Topsis.Compute | app.py:122-163 | TOPSIS returns the normalised and weighted matrices, both ideals, both distance vectors and the preferences, each equal to its specification function |
| Topsis.Normalize | app.py:127-133 | filling the zero-initialised matrix column by column with x / √(Σx²), or 0 when the divisor is not positive, yields exactly `Topsis.Normalized` |
| Topsis.Normalized | app.py:127-133 | the normalised matrix has the data's shape, and each cell is the guarded ratio to its column's Euclidean norm |
| Topsis.Weighted | app.py:136 | the weighted matrix has the same shape, and W[i][j] = N[i][j] · w_j |
| Topsis.Ideals | app.py:139-148 | appending one component per column yields exactly `Topsis.PositiveIdeal` and `Topsis.NegativeIdeal` |
| Topsis.IdealValues | app.py:143-148 | a Benefit column contributes its maximum to A⁺ and minimum to A⁻; a Cost column the reverse |
| Topsis.PositiveIdeal | app.py:139-148 | A⁺ has one component per criterion, read from that criterion's column |
| Topsis.NegativeIdeal | app.py:139-148 | A⁻ has one component per criterion, read from that criterion's column |
| Topsis.Separations | app.py:151-157 | appending one distance per alternative yields exactly the distance vectors to A⁺ and to A⁻ |
| Topsis.Distances | app.py:153-157 | there is one distance per alternative: the Euclidean distance of its weighted row to the ideal |
| Topsis.Preferences | app.py:160-161 | there is one preference per alternative: its closeness coefficient |
| Topsis.Closeness | app.py:160-161 | with D⁺ + D⁻ > 0 the closeness times D⁺ + D⁻ gives back D⁻; otherwise it is 0 |
| Topsis.SqrtZero | app.py:131 | the square root of a non-negative value is non-negative, and is 0 exactly when the value is 0 |
| Topsis.ZeroColumnNormalizesToZero | app.py:130-133 | a column of zeros, whose sum of squares is 0, normalises to all zeros |
| Topsis.NormalizedColumnIsUnit | app.py:127-133 | a column with a positive sum of squares normalises to a vector whose squares sum to 1 |
| Topsis.NormalizedInUnitInterval | app.py:127-133 | with non-negative data every normalised value lies in [0, 1] |
| Topsis.IdealBounds | app.py:139-148 | in a Benefit column A⁻_j ≤ W[i][j] ≤ A⁺_j for every i; in a Cost column the reverse; both components are attained by some alternative |
| Topsis.DistanceZeroIffAtIdeal | app.py:154-155 | every distance is non-negative, and it is 0 exactly when the row equals the ideal |
| Topsis.ClosenessBounds | app.py:160-161 | for non-negative distances the preference lies in [0, 1]; it is 0 when D⁺ + D⁻ = 0 or D⁻ = 0, and 1 when D⁺ = 0 < D⁻ |
| Topsis.PreferenceBounds | app.py:136-161 | every reported preference lies in [0, 1]; an alternative equal to A⁺ but not to A⁻ scores 1, and one equal to A⁻ scores 0 |
| Ranking.Rank | app.py:256-260 | the result table is a permutation of the (alternative, score) pairs, sorted highest score first, with rank p + 1 at position p (the WP, AHP and TOPSIS screens do the same at app.py:321-326, 477-482 and 553-560) |
| Ranking.Sort | app.py:256-259 | sorting gives a permutation of its input in non-increasing order of score |
| Ranking.Insert | app.py:259 | inserting after every entry with a score at least as high keeps the order and adds exactly that entry |
| Ranking.Number | app.py:260 | row p of the table gets rank p + 1, with its alternative and score unchanged |
| Ranking.FirstRowIsBest | app.py:263 | in a result table the first row has rank 1 and a score at least that of every alternative, so it is the best alternative the screen announces |

## Left out

- Floating-point arithmetic: the model computes with exact reals, so rounding, overflow, `inf` and `nan` are not modelled.
- The exact values of `x ** 0.5` (app.py:131, 154-155) and of `x ** w` (app.py:88): they are parameters, and the lemmas assume only `Topsis.IsSqrt` and `WeightedProduct.PowPositive`.
- In Python, `0 ** w` with a negative `w` raises `ZeroDivisionError`, and a negative base with a fractional exponent gives a complex number. The parameter `pow` is total. The WP screen's inputs start at 0.1 (app.py:306), so neither case arises there.
- Streamlit widgets, pandas tables, `.round(4)`, formatted text and the sidebar (app.py:1-31, and the screen code outside the cited lines). They are presentation. The numbers typed into the widgets are parameters: decision matrices, weights, directions and judgment matrices.
- Names of alternatives and criteria: the model identifies them by index.
- The per-step explanation on the SAW screen (app.py:225-236) is not modelled. It runs before `hitung_saw_manual` is called (app.py:238) and divides each Benefit cell by the column maximum without a guard (app.py:231). An all-zero Benefit column therefore raises `ZeroDivisionError` on the SAW screen before the SAW routine runs. The zero-maximum guard that `Saw.BenefitZeroColumn` states (app.py:54) cannot be reached from the SAW screen; it is reached only when the routine is called on its own.
- The weight-sum warning (app.py:196, 295, 518) and the consistency messages (app.py:424-427, 448-451): they only choose a message. They are modelled as the predicates `Decision.WeightSumWarning` and `Ahp.AcceptablyConsistent`.
- Widget bounds on the inputs (2 to 10 alternatives; 2 to 10 criteria on the SAW, WP and TOPSIS screens but 2 to 7 on the AHP screen, app.py:338; weights in [0, 1]; values at least 0 or 0.1): the model does not require them, except where a lemma needs non-negative or positive data.
- Shape of the inputs: every routine requires a rectangular matrix with at least one row. It also requires one weight and one direction per column, and a square AHP matrix of size at least 1. On fewer rows the Python code raises (`data[0]`, `max` of an empty list, division by `n = 0`) rather than returning a result.
- Ranking.Rank: ties are ordered as the model's insertion sort orders them. The model promises nothing about the order of equal scores, because pandas' default sort does not guarantee one.
