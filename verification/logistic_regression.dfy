/** The LogisticRegression class: normalisation with a bias column, and
    `solve`, which normalises, trains from a parameter vector of 0.5 and
    thresholds the test probabilities. */
module LogisticRegression {
  import opened Wrappers
  import opened MatrixFunctions
  import opened LinearAlgebra
  import opened FeatureScaling
  import opened RegressionCost
  import opened GradientDescent
  import DataCleaner

  const AlphaDefault: real := 0.2
  const LambdaDefault: real := 0.1
  const NumIterDefault: int := 300
  const ThresholdDefault: real := 0.5

  /** The options hash; a missing key falls back to its default. */
  datatype Options = Options(alpha: Option<real>, regLambda: Option<real>, numIter: Option<int>, threshold: Option<real>)

  const NoOptions: Options := Options(None, None, None, None)

  /** `[pY, h_x, theta]`: labels, probabilities and trained parameters. */
  datatype Prediction = Prediction(labels: seq<int>, probabilities: seq<real>, theta: seq<real>)

  /** `Matrix.build(rows, k + 1)` with 1.0 in column 0 and, in column i >= 1,
      the rescaled value of column `stats[i - 1].index`. */
  function WithBias(mX: Matrix, stats: seq<ColumnStat>): (r: Matrix)
    requires mX.Valid() && Usable(stats, mX.cols)
    ensures r.HasShape(|mX.rows|, |stats| + 1)
    ensures forall i :: 0 <= i < |mX.rows| ==> r.rows[i][0] == 1.0
    ensures forall i, j :: 0 <= i < |mX.rows| && 1 <= j <= |stats| ==>
      r.rows[i][j] == Rescale(mX.rows[i][stats[j - 1].index], stats[j - 1])
  {
    Matrix(seq(|mX.rows|, r requires 0 <= r < |mX.rows| =>
             seq(|stats| + 1, i requires 0 <= i <= |stats| =>
               if i == 0 then 1.0 else Rescale(mX.rows[r][stats[i - 1].index], stats[i - 1]))),
           |stats| + 1)
  }

  /** `normalize`: the training columns whose max exceeds their min, in
      ascending order, rescaled in both matrices by the training min and
      max, behind a bias column of 1.0. */
  function Normalize(train: Matrix, test: Matrix): (r: Result<(Matrix, Matrix), Error>)
    requires Compatible(train, test)
    ensures r.Success? <==> (|train.rows| > 0 || train.cols == 0)
    ensures r.Failure? ==> r.error == EmptyTrainingColumn
    ensures r.Success? ==>
      var idx := RetainedIndices(train);
      && r.value.0.HasShape(|train.rows|, |idx| + 1)
      && r.value.1.HasShape(|test.rows|, |idx| + 1)
      && (forall i :: 0 <= i < |train.rows| ==> r.value.0.rows[i][0] == 1.0)
      && (forall i :: 0 <= i < |test.rows| ==> r.value.1.rows[i][0] == 1.0)
      && (forall i, j :: 0 <= i < |train.rows| && 1 <= j <= |idx| ==>
            r.value.0.rows[i][j] == Rescale(train.rows[i][idx[j - 1]], TrainingStat(train, idx[j - 1])))
      && (forall i, j :: 0 <= i < |test.rows| && 1 <= j <= |idx| ==>
            r.value.1.rows[i][j] == Rescale(test.rows[i][idx[j - 1]], TrainingStat(train, idx[j - 1])))
  {
    match Stats(train)
    case Failure(e) => Failure(e)
    case Success(stats) =>
      Success((WithBias(train, stats), WithBias(test, stats)))
  }

  /** With a bias column the normalised matrices are DataCleaner's,
      widened by `add_one_vector`. */
  lemma NormalizeIsAddOneOfDataCleaner(train: Matrix, test: Matrix)
    requires Compatible(train, test)
    ensures Normalize(train, test).Success? == DataCleaner.Normalize(train, test).Success?
    ensures Normalize(train, test).Success? ==>
      var n := DataCleaner.Normalize(train, test).value;
      Normalize(train, test).value == (DataCleaner.AddOne(n.training), DataCleaner.AddOne(n.test))
  {
    if Normalize(train, test).Success? {
      var stats := Stats(train).value;
      WithBiasIsAddOne(train, stats);
      WithBiasIsAddOne(test, stats);
    }
  }

  lemma WithBiasIsAddOne(mX: Matrix, stats: seq<ColumnStat>)
    requires mX.Valid() && Usable(stats, mX.cols)
    ensures WithBias(mX, stats) == DataCleaner.AddOne(Rescaled(mX, stats))
  {
    var a, b := WithBias(mX, stats), DataCleaner.AddOne(Rescaled(mX, stats));
    forall i | 0 <= i < |mX.rows|
      ensures a.rows[i] == b.rows[i]
    {
      forall j | 0 <= j <= |stats|
        ensures a.rows[i][j] == b.rows[i][j]
      {
        if j > 0 {
          assert b.rows[i][j] == Rescaled(mX, stats).rows[i][j - 1];
        }
      }
    }
  }

  /** Every normalised training feature (column >= 1) lies in [0, 1]. */
  lemma TrainingFeaturesInUnitInterval(train: Matrix, test: Matrix)
    requires Compatible(train, test) && |train.rows| > 0
    ensures var a := Normalize(train, test).value.0;
      forall i, j :: 0 <= i < |a.rows| && 1 <= j < a.cols ==> 0.0 <= a.rows[i][j] <= 1.0
  {
    var a := Normalize(train, test).value.0;
    var idx := RetainedIndices(train);
    forall i, j | 0 <= i < |a.rows| && 1 <= j < a.cols
      ensures 0.0 <= a.rows[i][j] <= 1.0
    {
      var col := idx[j - 1];
      assert Column(train, col)[i] == train.rows[i][col];
      RescaleInUnitInterval(train.rows[i][col], TrainingStat(train, col));
    }
  }

  /** The starting parameters: n entries, each 0.5. */
  function InitialTheta(n: nat): (r: seq<real>)
    ensures |r| == n
    ensures forall i :: 0 <= i < n ==> r[i] == 0.5
  {
    seq(n, _ => 0.5)
  }

  /** Label 1 where the probability reaches the threshold, 0 elsewhere. */
  function Predict(h: seq<real>, threshold: real): (labels: seq<int>)
    ensures |labels| == |h|
    ensures forall i :: 0 <= i < |h| ==> (labels[i] == 1 <==> h[i] >= threshold)
    ensures forall i :: 0 <= i < |h| ==> (labels[i] == 0 <==> h[i] < threshold)
  {
    seq(|h|, i requires 0 <= i < |h| => if h[i] >= threshold then 1 else 0)
  }

  /** Raising the threshold can only turn labels 1 into 0, never back. */
  lemma PredictAntitoneInThreshold(h: seq<real>, low: real, high: real)
    requires low <= high
    ensures forall i :: 0 <= i < |h| ==> Predict(h, high)[i] <= Predict(h, low)[i]
  {
  }

  /** `solve(mX_training, vY_training, mX_test, options)`. */
  function Solve(train: Matrix, vY: seq<real>, test: Matrix, options: Options, sigma: real -> real): (r: Prediction)
    requires Compatible(train, test) && |vY| == |train.rows| && |vY| > 0
    ensures var norm := Normalize(train, test).value;
      var k := |RetainedIndices(train)| + 1;
      var p := Problem(norm.0, vY, options.regLambda.OrDefault(LambdaDefault), sigma);
      var numIter := options.numIter.OrDefault(NumIterDefault);
      && |r.theta| == k
      && r.theta == Iterate(p, InitialTheta(k), options.alpha.OrDefault(AlphaDefault), if numIter < 0 then 0 else numIter)
      && (numIter <= 0 ==> r.theta == InitialTheta(k))
      && |r.probabilities| == |test.rows|
      && (forall i :: 0 <= i < |test.rows| ==> r.probabilities[i] == sigma(Dot(norm.1.rows[i], r.theta)))
      && |r.labels| == |test.rows|
      && (forall i :: 0 <= i < |test.rows| ==>
            r.labels[i] == if r.probabilities[i] >= options.threshold.OrDefault(ThresholdDefault) then 1 else 0)
  {
    var norm := Normalize(train, test).value;
    var p := Problem(norm.0, vY, options.regLambda.OrDefault(LambdaDefault), sigma);
    var theta0 := InitialTheta(norm.0.cols);
    var alpha := options.alpha.OrDefault(AlphaDefault);
    var numIter := options.numIter.OrDefault(NumIterDefault);
    var theta := Run(p, theta0, alpha, numIter);
    RunFollowsSchedule(p, theta0, alpha, numIter);
    var h := Apply(sigma, MulVec(norm.1, theta));
    Prediction(Predict(h, options.threshold.OrDefault(ThresholdDefault)), h, theta)
  }

  /** Without options, `solve` runs 300 updates from step 0.2 with lambda
      0.1 and thresholds at 0.5. */
  lemma SolveDefaults(train: Matrix, vY: seq<real>, test: Matrix, sigma: real -> real)
    requires Compatible(train, test) && |vY| == |train.rows| && |vY| > 0
    ensures var r := Solve(train, vY, test, NoOptions, sigma);
      var norm := Normalize(train, test).value;
      var k := |RetainedIndices(train)| + 1;
      && r.theta == Iterate(Problem(norm.0, vY, 0.1, sigma), InitialTheta(k), 0.2, 300)
      && forall i :: 0 <= i < |test.rows| ==> (r.labels[i] == 1 <==> r.probabilities[i] >= 0.5)
  {
  }
}
