# Logistic-regression trainer: exact layer

This project models the exact, structural part of a small Ruby
logistic-regression trainer. The model covers:

- feature normalisation: column selection by training range, min-max rescaling of the training and test matrices, and an optional bias column;
- the parameter-vector helpers and the gradient-descent control law: the step-size schedule, the update, the all-0.5 start and the prediction threshold;
- the elementwise matrix utilities.

Arithmetic is on Dafny `real`. Matrices are `MatrixFunctions.Matrix`: the rows as `seq<seq<real>>` plus a column count, with `Valid()` saying every row has that many entries. The column count is stored apart so that a matrix with no rows keeps its width, as a Ruby `Matrix` does. Column vectors are plain `seq<real>`. The cost and the gradient work on these vectors directly. `HypothesisIsMatrixSigmoid` and `CostTermsAreMatrixHelpers` show that this agrees with the source's m-by-1 matrices passed through `sigmoid`, `log` and `one_minus`. The sigmoid and the natural logarithm are transcendental, so they are parameters of type `real -> real`. Every statement about them holds for any such function.

Modules, following the source files:

- `Wrappers`: `Option` (a missing key in the options hash) and `Result` (the exceptions the source raises).
- `MatrixFunctions` (`src/matrix_functions.rb`): `Build`, `BuildMatrix`, the elementwise maps, and `MatrixSize` with decimal numerals.
- `LinearAlgebra`: the parts of Ruby's `Matrix` library the trainer uses. These are column extraction, `max`/`min`, dot products and matrix-vector products.
- `FeatureScaling`: the column scan and the rescaling. They appear twice in the source, in `LogisticRegression#normalize` and `DataCleaner#normalize`, and are defined once here.
- `DataCleaner` (`src/data_cleaner.rb`): `normalize` without a bias column, and `add_one_vector`.
- `RegressionCost` (`src/logistic_regression.rb`, `theta_square` and `cost_function`).
- `GradientDescent` (`src/logistic_regression.rb`, `gradient_descent`). The loop is a recursive fold `Descend` over the loop-carried parameters and step size. `Iterate` is an independent closed-form reference in which update t uses step `alpha0 / 2^(t div 50)`.
- `LogisticRegression` (`src/logistic_regression.rb`, `normalize` with a bias column, and `solve`).

Error paths modelled:

- A training matrix with columns but no rows fails with `EmptyTrainingColumn`. In Ruby, `[].max` is `nil`, so `cmax - cmin` raises.
- `DataCleaner#normalize` as written fails with `UndefinedName("c")`. See Findings.

What the source does not do, and the model therefore does not do either:

- The source raises no error when no column is retained. `LogisticRegression.Normalize` then returns the bias column alone and `DataCleaner.Normalize` returns zero-width matrices.
- The source makes no check on dimensions or labels, and clamps no probability.
- The bias-prepending normaliser indexes correctly: column `i >= 1` uses `indices[i-1]`.
- The cost's first term is `h'*y`, as written, not `log(h)'*y`. `gradient_descent` discards the cost, so this term has no effect on training.

## Model

| member | source | states |
|---|---|---|
| MatrixFunctions.BuildMatrix | src/matrix_functions.rb:27-35 | The nested fill loop gives entry (i, j) = f(i, j) in m rows. The width is n, except that with no rows `Matrix.[]` gives a 0-by-0 matrix. For m > 0 the result equals what `Matrix.build` gives |
| MatrixFunctions.Sigmoid | src/matrix_functions.rb:5-8 | Shape is preserved and every entry z becomes sigma(z), for any sigmoid function |
| MatrixFunctions.Log | src/matrix_functions.rb:18-20 | Shape is preserved and every entry z becomes ln(z), for any logarithm function |
| MatrixFunctions.OneMinus | src/matrix_functions.rb:14-16 | Shape is preserved and each result entry plus its source entry is 1 |
| MatrixFunctions.OneMinusInvolution | src/matrix_functions.rb:14-16 | Applying `one_minus` twice returns the matrix |
| MatrixFunctions.OneBy | src/matrix_functions.rb:10-12 | On matrices without zero entries: shape is preserved, no entry is zero, and each result entry times its source entry is 1 |
| MatrixFunctions.OneByInvolution | src/matrix_functions.rb:10-12 | Applying `one_by` twice returns the matrix |
| MatrixFunctions.Decimal | src/matrix_functions.rb:23 | `to_s` of a count is a non-empty string of digits with no leading zero |
| MatrixFunctions.DecimalRoundTrip | src/matrix_functions.rb:23 | Reading the digits back gives the number |
| MatrixFunctions.MatrixSizeRoundTrip | src/matrix_functions.rb:22-24 | The size string is the row count, then "x", then the column count: parsing it returns exactly (rows, columns) |
| LinearAlgebra.Max | src/logistic_regression.rb:78 | A column's max is at least every entry and is one of the entries |
| LinearAlgebra.Min | src/logistic_regression.rb:79 | A column's min is at most every entry and is one of the entries |
| FeatureScaling.Spread | src/logistic_regression.rb:76-81 | Flag j is set iff training column j has `cmax - cmin > 0` |
| FeatureScaling.Select | src/logistic_regression.rb:75-86 | The pushed indices are strictly ascending, and an index is pushed iff its flag is set |
| FeatureScaling.RetainedIndices | src/logistic_regression.rb:75-86 | A training column index is retained iff its max exceeds its min, and the retained indices are strictly ascending |
| FeatureScaling.Stats | src/logistic_regression.rb:75-86 | Fails iff the training matrix has columns but no rows. Otherwise it gives one (index, min, max) per retained column, in order, each with min < max |
| FeatureScaling.RescaleInUnitInterval | src/logistic_regression.rb:95 | A value within the column's training range rescales into [0, 1] |
| FeatureScaling.RescaleEndpoints | src/logistic_regression.rb:95 | The training min rescales to exactly 0 and the training max to exactly 1 |
| FeatureScaling.RescaledColumnSpansUnitInterval | src/logistic_regression.rb:95 | A column rescaled by its own min and max has min exactly 0 and max exactly 1 |
| FeatureScaling.Rescaled | src/data_cleaner.rb:26-31 | Same row count, one column per retained index, entry (r, c) = rescaled value of source column `indices[c]` |
| DataCleaner.Normalize | src/data_cleaner.rb:9-33 | Fails iff the training matrix has columns but no rows. Otherwise it returns [training, test, indices], where indices are the training columns with max > min in ascending order. Both matrices keep their row count and have exactly one column per index with no bias column. The test matrix is rescaled with the training min and max |
| DataCleaner.NormalizeAsWritten | src/data_cleaner.rb:26-31 | As written, succeeds iff the scan succeeds and no column is retained; any other failure is the undefined name `c` |
| DataCleaner.AsWrittenFailsWhenAColumnIsKept | src/data_cleaner.rb:29 | Whenever a column is retained, the written routine raises on `c`. When it succeeds, it agrees with the documented routine |
| DataCleaner.AsWrittenCounterexample | src/data_cleaner.rb:29 | For training [[0],[1]] and test [[0.5]], the written routine raises and the documented one returns both matrices unchanged with indices [0] |
| DataCleaner.TrainingInUnitInterval | src/data_cleaner.rb:14-29 | Every normalised training entry lies in [0, 1] |
| DataCleaner.NormalizedColumnSpansUnitInterval | src/data_cleaner.rb:14-29 | Each normalised training column has min exactly 0 and max exactly 1 |
| DataCleaner.NormalizeUnitColumns | src/data_cleaner.rb:9-33 | A training matrix whose every column already spans exactly [0, 1] keeps every column, and both matrices come back unchanged |
| DataCleaner.NormalizeIdempotent | src/data_cleaner.rb:9-33 | Normalising the normalised pair again keeps every column and returns the same matrices |
| DataCleaner.AddOne | src/data_cleaner.rb:38-44 | Same row count and one more column. Column 0 is all 1.0. Column j+1 is source column j |
| DataCleaner.AddOneThenDropFirst | src/data_cleaner.rb:41-43 | Removing the prepended column gives back the original matrix |
| DataCleaner.AddOneVector | src/data_cleaner.rb:37-45 | One result per argument, in argument order, each the argument widened by a ones column |
| RegressionCost.ThetaSquare | src/logistic_regression.rb:118-124 | The sum of theta[i]^2 for i in 1..n-1 is non-negative |
| RegressionCost.ThetaSquareIgnoresBias | src/logistic_regression.rb:120 | `theta_square` does not change when theta[0] changes |
| RegressionCost.ThetaSquareInject | src/logistic_regression.rb:121-123 | The `inject` loop from index 1 computes exactly the sum of squares without index 0 |
| RegressionCost.Hypothesis | src/logistic_regression.rb:32 | One probability per training example, each sigma of the example's dot product with theta |
| RegressionCost.HypothesisIsMatrixSigmoid | src/logistic_regression.rb:32 | The vector hypothesis is the matrix `sigmoid` applied to the m-by-1 product `mX * vTheta` |
| RegressionCost.CostTermsAreMatrixHelpers | src/logistic_regression.rb:35 | The cost's vectors `log(one_minus(h_x))` and `one_minus(vY)` are the matrix helpers applied to the m-by-1 columns |
| RegressionCost.Gradient | src/logistic_regression.rb:43-46 | The gradient has one component per parameter |
| RegressionCost.CostFunction | src/logistic_regression.rb:29-49 | Returns [cost, gradient]. The cost is the unregularised cost plus (lambda/2m)·theta_square. The gradient is the as-written one, with one component per parameter |
| RegressionCost.CostPenaltyExcludesBias | src/logistic_regression.rb:39-40 | The cost is the unregularised cost plus (lambda/2m)·theta_square, and that penalty does not depend on theta[0] |
| RegressionCost.GradientPenaltyOnEveryComponent | src/logistic_regression.rb:46 | Every gradient component, index 0 included, is the unregularised one minus (lambda/m)·theta[k] |
| RegressionCost.PenaltySlope | src/logistic_regression.rb:39-40 | Moving theta[k] by t changes the cost's penalty by t·PenaltyGradient[k] (0 for the bias, (lambda/m)·theta[k] otherwise) plus a second-order term (lambda/2m)·t², which is 0 for the bias |
| RegressionCost.GradientPenaltyHasWrongSign | src/logistic_regression.rb:46 | The source's gradient penalty is the negation of the penalty's derivative on every regularised component, and is non-zero on the bias, where the derivative is zero |
| GradientDescent.Update | src/logistic_regression.rb:61 | theta - alpha·grad, component by component, length preserved |
| GradientDescent.Descend | src/logistic_regression.rb:58-65 | The loop keeps the parameter vector's length |
| GradientDescent.Run | src/logistic_regression.rb:54-68 | Returns a vector of the same length, and returns the input unchanged when `num_iter` is not positive |
| GradientDescent.StepSizeRecurrence | src/logistic_regression.rb:60 | The step is halved exactly at iterations that are multiples of 50, before that iteration's update |
| GradientDescent.StepSizeSchedule | src/logistic_regression.rb:15-16 | Every iteration up to 49 uses alpha0, every iteration from 50 to 99 uses alpha0/2, and iteration 100 uses alpha0/4 |
| GradientDescent.DescendStep | src/logistic_regression.rb:57-59 | One turn of the loop (halving at multiples of 50, then the update) takes the reference state and step after k updates to those after k+1 |
| GradientDescent.DescendFollowsIterate | src/logistic_regression.rb:56-65 | The loop entered at iteration k+1 in the reference state after k updates ends in the reference state after `num_iter` updates |
| GradientDescent.RunFollowsSchedule | src/logistic_regression.rb:54-68 | `gradient_descent` performs exactly `num_iter` updates theta := theta - alpha_t·grad(theta), with alpha_t = alpha0 / 2^(t div 50) |
| LogisticRegression.WithBias | src/logistic_regression.rb:91-96 | Same row count, k+1 columns, column 0 all 1.0, column j >= 1 the rescaled source column `indices[j-1]` |
| LogisticRegression.Normalize | src/logistic_regression.rb:70-98 | Fails iff the training matrix has columns but no rows. Both outputs keep their row count and have retained+1 columns. Column 0 is 1.0. Column j >= 1 holds source column `indices[j-1]`, rescaled with the training min and max |
| LogisticRegression.NormalizeIsAddOneOfDataCleaner | src/logistic_regression.rb:88-97 | The bias-prepending normaliser equals DataCleaner's normaliser followed by `add_one_vector` |
| LogisticRegression.TrainingFeaturesInUnitInterval | src/logistic_regression.rb:78-95 | Every normalised training entry in columns >= 1 lies in [0, 1] |
| LogisticRegression.InitialTheta | src/logistic_regression.rb:107 | The start vector has the normalised width and every entry is 0.5 |
| LogisticRegression.Predict | src/logistic_regression.rb:112 | One label per probability. A label is 1 iff the probability is >= threshold, and 0 iff it is below |
| LogisticRegression.PredictAntitoneInThreshold | src/logistic_regression.rb:112 | Raising the threshold never turns a 0 label into 1 |
| LogisticRegression.Solve | src/logistic_regression.rb:101-115 | theta has retained+1 entries and is the result of exactly `num_iter` scheduled updates from all-0.5 on the normalised training data (all 0.5 if `num_iter` <= 0). There is one probability per test row, sigma(normalised row · theta), and label i is 1 iff probability i >= threshold, else 0 |
| LogisticRegression.SolveDefaults | src/logistic_regression.rb:14-19 | Without options, `solve` trains 300 updates from alpha 0.2 with lambda 0.1 and thresholds at 0.5 |

## Left out

- The numeric values of `sigmoid`, `log` and `Math.exp`: they are transcendental. Here they are function parameters, and no cost value, convergence or cost decrease is stated.
- IEEE-754 behaviour: arithmetic is on `real`. The source's `> 0.0` and `>=` comparisons are on floats, and NaN and infinities are not modelled.
- `start_time`, `Time.now`, the commented-out time-budget `break` and the commented `puts`: they are wall-clock I/O with no effect on results.
- Ruby's `Matrix` library: it is modelled only as far as used. Its `ErrDimensionMismatch` on badly shaped operands in `cost_function` and `solve` is replaced by preconditions: `Valid()` matrices, `|vY|` equal to the training row count, and `|theta|` equal to the training column count (the product `mX * vTheta` at line 32).
- DataCleaner.Normalize, LogisticRegression.Normalize and LogisticRegression.Solve: they require a test matrix at least as wide as the training matrix (`Compatible`). This is stronger than the source needs. In Ruby, `mX[r, j]` is `nil` for a column j past the test matrix's width, and line 95 of `src/logistic_regression.rb` then raises `NoMethodError` (`nil - Float`). That happens only when a retained index is past the test width. For example, training [[0, 5], [1, 5]] keeps only column 0, so test [[0.5]] normalises in Ruby but is excluded here.
- Matrix entries are taken to be Float. With Integer entries (for example the literal `Matrix[[1, 10], [2, 20]]`), Ruby's `/` at line 95 of `src/logistic_regression.rb` floor-divides. For training [[1], [2], [3]], row 1 then normalises to 0 instead of 0.5, and a test value 0 gives -1 instead of -0.5.
- RegressionCost.Cost: it requires at least one training example (`WellFormed`), because m = 0 divides by zero. Ruby produces NaN or infinite floats there instead of raising.
- RegressionCost.Gradient: it requires at least one training example, for the same reason as `Cost`.
- LogisticRegression.Solve: it requires at least one training example, for the same reason as `Cost`. Then normalisation cannot fail.
- MatrixFunctions.OneBy: it requires non-zero entries, where Ruby would yield an infinity.
- Options: Ruby's `x || default` also replaces an explicit `false`; only a missing key (`None`) is modelled.
- Labels are not required to be 0 or 1, because the source does not check them.
- The source has no dimension checks, no error on an empty retained set and no probability clamping; none is modelled.
- The `[cost, grad]` pair is modelled (`CostFunction`), but the loop only evaluates the gradient: the source computes the cost each iteration and discards it.

## Findings

| source | as written | input that shows it | evidently intended | confidence | as-written member | corrected member |
|---|---|---|---|---|---|---|
| src/data_cleaner.rb:29 | The cell block reads `c`, but the block parameter is `i`. `c` is undefined, so building either matrix raises NameError as soon as it has a cell | training [[0.0],[1.0]], test [[0.5]]: column 0 is retained and the build raises | Rescale source column `indices[i]` by `minx[i]` and `maxx[i]` (lines 7-8) | high; not executed | DataCleaner.NormalizeAsWritten (AsWrittenFailsWhenAColumnIsKept, AsWrittenCounterexample) | DataCleaner.Normalize (TrainingInUnitInterval, NormalizeIdempotent) |
| src/logistic_regression.rb:46 | `grad - (reg_lambda/m) * vTheta` subtracts the penalty term from every component | theta = [0.5, 0.5], lambda = 0.1, m = 1: the penalty part of the gradient is [-0.05, -0.05], but the cost penalty's derivative is [0, 0.05] | add (lambda/m)·theta[k] for k >= 1 and nothing for k = 0, matching the cost's penalty (line 40) | high; not executed | RegressionCost.Gradient (GradientPenaltyHasWrongSign) | RegressionCost.PenaltyGradient (PenaltySlope) |

The optimiser and `solve` keep the gradient as written (line 46), because they describe what the trainer computes. `PenaltyGradient` is the corrected regularisation term, and `PenaltySlope` proves it is the derivative of the cost's penalty.
