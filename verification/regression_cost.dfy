/** `cost_function` and `theta_square` of the LogisticRegression class: the
    regularised cross-entropy cost and its gradient, with the sigmoid and
    the logarithm left abstract. */
module RegressionCost {
  import opened MatrixFunctions
  import opened LinearAlgebra

  /** The data a cost evaluation sees: the m-by-n feature matrix `mX`, the
      m labels `vY`, the L2 weight `regLambda` and the sigmoid. */
  datatype Problem = Problem(mX: Matrix, vY: seq<real>, regLambda: real, sigmoid: real -> real) {

    /** `mX * vTheta` and `h_x - vY` are defined, and m is not zero. */
    predicate WellFormed() {
      mX.Valid() && |mX.rows| == |vY| && |vY| > 0
    }

    /** m, the number of training examples, as a real. */
    function Size(): real {
      |vY| as real
    }

    /** The same problem without regularisation. */
    function Unregularised(): Problem {
      this.(regLambda := 0.0)
    }
  }

  /** The sum of the squares of `v`, accumulated left to right. */
  function SumSquares(v: seq<real>): (r: real)
    ensures r >= 0.0
  {
    if |v| == 0 then 0.0 else SumSquares(v[..|v| - 1]) + v[|v| - 1] * v[|v| - 1]
  }

  /** Changing one entry by `t` changes the sum of squares by 2*t*v[j] + t*t. */
  lemma {:induction false} SumSquaresUpdate(v: seq<real>, j: nat, t: real)
    requires j < |v|
    ensures SumSquares(v[j := v[j] + t]) == SumSquares(v) + 2.0 * t * v[j] + t * t
    decreases |v|
  {
    var w := v[j := v[j] + t];
    var n := |v| - 1;
    assert w[..n] == if j < n then v[..n][j := v[j] + t] else v[..n];
    if j < n {
      SumSquaresUpdate(v[..n], j, t);
    } else {
      assert (v[j] + t) * (v[j] + t) == v[j] * v[j] + 2.0 * t * v[j] + t * t;
    }
  }

  /** `theta_square`: the sum of theta[i]^2 for i in 1 .. n-1; the bias
      parameter theta[0] is not regularised. */
  function ThetaSquare(theta: seq<real>): (r: real)
    ensures r >= 0.0
  {
    if |theta| == 0 then 0.0 else SumSquares(theta[1..])
  }

  /** `theta_square` does not depend on the bias parameter. */
  lemma ThetaSquareIgnoresBias(theta: seq<real>, x: real)
    requires |theta| > 0
    ensures ThetaSquare(theta[0 := x]) == ThetaSquare(theta)
  {
    assert theta[0 := x][1..] == theta[1..];
  }

  /** The `(1...n).inject(0)` loop of `theta_square`. */
  method ThetaSquareInject(theta: seq<real>) returns (sum: real)
    ensures sum == ThetaSquare(theta)
    ensures sum >= 0.0
  {
    sum := 0.0;
    if |theta| == 0 {
      return;
    }
    var i := 1;
    while i < |theta|
      invariant 1 <= i <= |theta|
      invariant sum == SumSquares(theta[1..i])
    {
      assert theta[1..i + 1][..i - 1] == theta[1..i];
      sum := sum + theta[i] * theta[i];
      i := i + 1;
    }
    assert theta[1..i] == theta[1..];
  }

  /** h = sigmoid(mX * theta): one predicted probability per example. */
  function Hypothesis(p: Problem, theta: seq<real>): (h: seq<real>)
    requires p.WellFormed() && |theta| == p.mX.cols
    ensures |h| == |p.vY|
    ensures forall i :: 0 <= i < |h| ==> h[i] == p.sigmoid(Dot(p.mX.rows[i], theta))
  {
    Apply(p.sigmoid, MulVec(p.mX, theta))
  }

  /** A vector as an m-by-1 matrix, the shape the source's vectors have. */
  function AsColumn(v: seq<real>): (r: Matrix)
    ensures r.HasShape(|v|, 1)
    ensures Column(r, 0) == v
  {
    var r := Matrix(seq(|v|, i requires 0 <= i < |v| => [v[i]]), 1);
    assert forall i :: 0 <= i < |v| ==> Column(r, 0)[i] == v[i];
    r
  }

  /** The hypothesis is the matrix `sigmoid` applied to the m-by-1 product
      `mX * theta`. */
  lemma HypothesisIsMatrixSigmoid(p: Problem, theta: seq<real>)
    requires p.WellFormed() && |theta| == p.mX.cols
    ensures Hypothesis(p, theta) == Column(Sigmoid(AsColumn(MulVec(p.mX, theta)), p.sigmoid), 0)
  {
  }

  /** The cost's vector terms `log(one_minus(h))` and `one_minus(y)` are the
      matrix helpers applied to the m-by-1 columns. */
  lemma CostTermsAreMatrixHelpers(h: seq<real>, y: seq<real>, ln: real -> real)
    ensures Apply(ln, Apply(Complement, h)) == Column(Log(OneMinus(AsColumn(h)), ln), 0)
    ensures Apply(Complement, y) == Column(OneMinus(AsColumn(y)), 0)
  {
  }

  /** The regularisation added to the cost: (lambda / 2m) * theta_square. */
  function Penalty(theta: seq<real>, regLambda: real, m: real): real
    requires m > 0.0
  {
    (regLambda / (2.0 * m)) * ThetaSquare(theta)
  }

  /** The cost as written: -(1/m) * (h'*y + log(1-h)'*(1-y)) plus the
      penalty. The first term uses h itself, not log(h); the value is never
      used by the optimiser. */
  function Cost(p: Problem, theta: seq<real>, ln: real -> real): real
    requires p.WellFormed() && |theta| == p.mX.cols
  {
    var m := p.Size();
    var h := Hypothesis(p, theta);
    (-1.0 / m) * (Dot(h, p.vY) + Dot(Apply(ln, Apply(Complement, h)), Apply(Complement, p.vY)))
    + Penalty(theta, p.regLambda, m)
  }

  /** The gradient as written: (1/m) * (diff' * mX)' with diff = h - y, then
      (lambda/m) * theta subtracted from every component. */
  function Gradient(p: Problem, theta: seq<real>): (g: seq<real>)
    requires p.WellFormed() && |theta| == p.mX.cols
    ensures |g| == |theta|
  {
    var m := p.Size();
    var h := Hypothesis(p, theta);
    var diff := seq(|h|, i requires 0 <= i < |h| => h[i] - p.vY[i]);
    var data := TransposeMulVec(diff, p.mX);
    seq(|theta|, k requires 0 <= k < |theta| => (1.0 / m) * data[k] - (p.regLambda / m) * theta[k])
  }

  /** `cost_function`: the pair [cost, gradient]. */
  function CostFunction(p: Problem, theta: seq<real>, ln: real -> real): (r: (real, seq<real>))
    requires p.WellFormed() && |theta| == p.mX.cols
    ensures r.0 == Cost(p.Unregularised(), theta, ln) + Penalty(theta, p.regLambda, p.Size())
    ensures |r.1| == |theta|
    ensures r.1 == Gradient(p, theta)
  {
    (Cost(p, theta, ln), Gradient(p, theta))
  }

  /** The cost's regularisation is lambda/(2m) times `theta_square`, so it
      does not depend on theta[0]. */
  lemma CostPenaltyExcludesBias(p: Problem, theta: seq<real>, ln: real -> real, x: real)
    requires p.WellFormed() && |theta| == p.mX.cols && |theta| > 0
    ensures Cost(p, theta, ln) == Cost(p.Unregularised(), theta, ln) + Penalty(theta, p.regLambda, p.Size())
    ensures Penalty(theta[0 := x], p.regLambda, p.Size()) == Penalty(theta, p.regLambda, p.Size())
  {
    ThetaSquareIgnoresBias(theta, x);
  }

  /** The gradient's regularisation subtracts (lambda/m) * theta[k] from
      every component, the bias component k = 0 included. */
  lemma GradientPenaltyOnEveryComponent(p: Problem, theta: seq<real>)
    requires p.WellFormed() && |theta| == p.mX.cols
    ensures forall k :: 0 <= k < |theta| ==>
      Gradient(p, theta)[k] == Gradient(p.Unregularised(), theta)[k] - (p.regLambda / p.Size()) * theta[k]
  {
  }

  /** The derivative of `Penalty` with respect to theta[k]: 0 for the bias,
      (lambda/m) * theta[k] otherwise. */
  function PenaltyGradient(theta: seq<real>, regLambda: real, m: real): (g: seq<real>)
    requires m > 0.0
    ensures |g| == |theta|
  {
    seq(|theta|, k requires 0 <= k < |theta| => if k == 0 then 0.0 else (regLambda / m) * theta[k])
  }

  /** Moving theta[k] by t changes the penalty by t times `PenaltyGradient`
      plus a second-order term: `PenaltyGradient` is its exact derivative. */
  lemma PenaltySlope(theta: seq<real>, regLambda: real, m: real, k: nat, t: real)
    requires m > 0.0 && k < |theta|
    ensures Penalty(theta[k := theta[k] + t], regLambda, m)
      == Penalty(theta, regLambda, m) + t * PenaltyGradient(theta, regLambda, m)[k]
         + (if k == 0 then 0.0 else (regLambda / (2.0 * m)) * (t * t))
  {
    var moved := theta[k := theta[k] + t];
    var g := PenaltyGradient(theta, regLambda, m);
    var c := regLambda / (2.0 * m);
    var s0, s1 := ThetaSquare(theta), ThetaSquare(moved);
    assert Penalty(theta, regLambda, m) == c * s0;
    assert Penalty(moved, regLambda, m) == c * s1;
    if k == 0 {
      ThetaSquareIgnoresBias(theta, theta[0] + t);
      assert g[k] == 0.0;
      assert t * g[k] == 0.0;
    } else {
      ThetaSquareUpdate(theta, k, t);
      assert g[k] == (regLambda / m) * theta[k];
      PenaltyArithmetic(regLambda, m, s0, s1, theta[k], t);
      assert c * s1 == c * s0 + t * g[k] + c * (t * t);
    }
  }

  /** Moving a regularised parameter by t changes `theta_square` by
      2*t*theta[k] + t*t. */
  lemma ThetaSquareUpdate(theta: seq<real>, k: nat, t: real)
    requires 1 <= k < |theta|
    ensures ThetaSquare(theta[k := theta[k] + t]) == ThetaSquare(theta) + 2.0 * t * theta[k] + t * t
  {
    assert theta[k := theta[k] + t][1..] == theta[1..][k - 1 := theta[1..][k - 1] + t];
    SumSquaresUpdate(theta[1..], k - 1, t);
  }

  /** The real arithmetic behind `PenaltySlope`: scaling s0 + 2*t*x + t*t by
      lambda/(2m). */
  lemma PenaltyArithmetic(regLambda: real, m: real, s0: real, s1: real, x: real, t: real)
    requires m > 0.0 && s1 == s0 + 2.0 * t * x + t * t
    ensures (regLambda / (2.0 * m)) * s1
      == (regLambda / (2.0 * m)) * s0 + t * ((regLambda / m) * x) + (regLambda / (2.0 * m)) * (t * t)
  {
    var c := regLambda / (2.0 * m);
    assert regLambda / m == 2.0 * c;
    assert c * s1 == c * s0 + c * (2.0 * t * x) + c * (t * t);
    assert c * (2.0 * t * x) == t * ((2.0 * c) * x);
  }

  /** The source's gradient penalty has the opposite sign to the penalty's
      derivative on every regularised component, and is non-zero on the
      bias component, where the derivative is zero. */
  lemma GradientPenaltyHasWrongSign(p: Problem, theta: seq<real>, k: nat)
    requires p.WellFormed() && |theta| == p.mX.cols && k < |theta|
    requires p.regLambda > 0.0 && theta[k] != 0.0
    ensures var asWritten := Gradient(p, theta)[k] - Gradient(p.Unregularised(), theta)[k];
      var derivative := PenaltyGradient(theta, p.regLambda, p.Size())[k];
      if k == 0 then derivative == 0.0 && asWritten != 0.0
      else asWritten == -derivative && asWritten * derivative < 0.0
  {
    GradientPenaltyOnEveryComponent(p, theta);
    var c := p.regLambda / p.Size();
    assert c > 0.0;
    assert c * theta[k] != 0.0;
    assert (-(c * theta[k])) * (c * theta[k]) < 0.0;
  }
}
