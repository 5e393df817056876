/** `gradient_descent`: a fixed number of updates
    theta := theta - alpha * grad(theta), with the step size halved every
    50 iterations before that iteration's update. */
module GradientDescent {
  import opened RegressionCost

  const AlphaScalingFactor: real := 2.0
  const AlphaScalingIterations: nat := 50

  function Pow(b: real, k: nat): (r: real)
    requires b > 0.0
    ensures r > 0.0
  {
    if k == 0 then 1.0 else b * Pow(b, k - 1)
  }

  /** The step size used by update number t (counted from 1), for a
      starting step `alpha0`: alpha0 / 2^(t div 50). */
  function StepSize(alpha0: real, t: nat): real {
    alpha0 / Pow(AlphaScalingFactor, t / AlphaScalingIterations)
  }

  /** theta - alpha * g. */
  function Update(theta: seq<real>, alpha: real, g: seq<real>): (r: seq<real>)
    requires |g| == |theta|
    ensures |r| == |theta|
    ensures forall i :: 0 <= i < |theta| ==> r[i] + alpha * g[i] == theta[i]
  {
    seq(|theta|, i requires 0 <= i < |theta| => theta[i] - alpha * g[i])
  }

  /** The loop `(1..numIter).each do |iter|` from iteration `iter` on, with
      the loop-carried parameters `theta` and step size `alpha`. The cost
      computed in each iteration is discarded, so only the gradient is
      evaluated here. */
  function Descend(p: Problem, theta: seq<real>, alpha: real, iter: int, numIter: int): (r: seq<real>)
    requires p.WellFormed() && |theta| == p.mX.cols
    ensures |r| == |theta|
    decreases numIter - iter + 1
  {
    if iter > numIter then theta
    else
      var grad := Gradient(p, theta);
      var alpha' := if iter % AlphaScalingIterations == 0 then alpha / AlphaScalingFactor else alpha;
      Descend(p, Update(theta, alpha', grad), alpha', iter + 1, numIter)
  }

  /** `gradient_descent(mX, vY, vTheta, alpha, num_iter)`. */
  function Run(p: Problem, theta0: seq<real>, alpha0: real, numIter: int): (r: seq<real>)
    requires p.WellFormed() && |theta0| == p.mX.cols
    ensures |r| == |theta0|
    ensures numIter <= 0 ==> r == theta0
  {
    Descend(p, theta0, alpha0, 1, numIter)
  }

  /** Reference definition: the parameters after k updates, update t using
      `StepSize(alpha0, t)`. */
  function Iterate(p: Problem, theta0: seq<real>, alpha0: real, k: nat): (r: seq<real>)
    requires p.WellFormed() && |theta0| == p.mX.cols
    ensures |r| == |theta0|
  {
    if k == 0 then theta0
    else
      var prev := Iterate(p, theta0, alpha0, k - 1);
      Update(prev, StepSize(alpha0, k), Gradient(p, prev))
  }

  /** Halving happens exactly at the iterations that are multiples of 50. */
  lemma StepSizeRecurrence(alpha0: real, t: nat)
    requires t >= 1
    ensures StepSize(alpha0, t)
      == if t % AlphaScalingIterations == 0 then StepSize(alpha0, t - 1) / AlphaScalingFactor
         else StepSize(alpha0, t - 1)
  {
    var q := (t - 1) / 50;
    if t % 50 == 0 {
      assert t / 50 == q + 1;
      var pw := Pow(2.0, q);
      assert Pow(2.0, q + 1) == 2.0 * pw;
      assert alpha0 / (2.0 * pw) == (alpha0 / pw) / 2.0;
    } else {
      assert t / 50 == q;
    }
  }

  /** The concrete schedule: alpha0 for iterations up to 49, alpha0/2 for
      iterations 50 to 99, alpha0/4 from iteration 100. */
  lemma StepSizeSchedule(alpha0: real)
    ensures forall t: nat :: t < 50 ==> StepSize(alpha0, t) == alpha0
    ensures forall t: nat :: 50 <= t < 100 ==> StepSize(alpha0, t) == alpha0 / 2.0
    ensures StepSize(alpha0, 100) == alpha0 / 4.0
  {
    forall t: nat | 50 <= t < 100
      ensures StepSize(alpha0, t) == alpha0 / 2.0
    {
      assert t / AlphaScalingIterations == 1;
      assert Pow(2.0, 1) == 2.0;
    }
    assert Pow(2.0, 2) == 4.0;
  }

  /** One turn of the loop, entered after k updates with the reference
      state and step size, leaves the reference state and step size after
      k + 1 updates. */
  lemma DescendStep(p: Problem, theta0: seq<real>, alpha0: real, k: nat, numIter: nat)
    requires p.WellFormed() && |theta0| == p.mX.cols
    requires k < numIter
    ensures Descend(p, Iterate(p, theta0, alpha0, k), StepSize(alpha0, k), k + 1, numIter)
         == Descend(p, Iterate(p, theta0, alpha0, k + 1), StepSize(alpha0, k + 1), k + 2, numIter)
  {
    StepSizeRecurrence(alpha0, k + 1);
  }

  /** The loop, entered at iteration k + 1 with the state the reference
      reaches after k updates, ends where the reference ends after numIter. */
  lemma {:induction false} DescendFollowsIterate(p: Problem, theta0: seq<real>, alpha0: real, k: nat, numIter: nat)
    requires p.WellFormed() && |theta0| == p.mX.cols
    requires k <= numIter
    ensures Descend(p, Iterate(p, theta0, alpha0, k), StepSize(alpha0, k), k + 1, numIter)
         == Iterate(p, theta0, alpha0, numIter)
    decreases numIter - k
  {
    if k < numIter {
      DescendStep(p, theta0, alpha0, k, numIter);
      DescendFollowsIterate(p, theta0, alpha0, k + 1, numIter);
    }
  }

  /** `gradient_descent` performs exactly `numIter` updates (none when
      `numIter` is not positive), update t with step alpha0 / 2^(t div 50). */
  lemma RunFollowsSchedule(p: Problem, theta0: seq<real>, alpha0: real, numIter: int)
    requires p.WellFormed() && |theta0| == p.mX.cols
    ensures Run(p, theta0, alpha0, numIter) == Iterate(p, theta0, alpha0, if numIter < 0 then 0 else numIter)
  {
    if numIter > 0 {
      assert StepSize(alpha0, 0) == alpha0;
      DescendFollowsIterate(p, theta0, alpha0, 0, numIter);
    }
  }
}
