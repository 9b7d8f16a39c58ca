/**
 * The stochastic gradient descent driver (src/optimizer.h, src/optimizer.cpp), on its
 * non-preconditioned path.
 *
 * The driver sees its model only through `get_parameter`, `grad` and `set_parameter`. A model
 * is therefore given here by the parameter vector it starts from and by what `grad` returns
 * after a given sequence of `set_parameter` calls: everything `grad` depends on (the Gibbs
 * sweeps, the random draws) is fixed by that history once the model and its random stream are.
 */
module Optimizer {
  import opened Algebra

  /** A model as the driver sees it. */
  datatype Model = Model(initial: Vector, grad: seq<Vector> -> Vector)

  /** Every gradient the model returns has the size of its parameter vector. */
  ghost predicate Lawful(m: Model)
  {
    forall h :: |m.grad(h)| == |m.initial|
  }

  /** `grad.norm() <= 10^-6`, stated on the squared norm. */
  const Tolerance: real := 0.000000000001

  predicate Small(g: Vector)
  {
    SquaredNorm(g) <= Tolerance
  }

  /**
   * The rest of the run once count = |xTraj| passes have been made and x is the current
   * parameter: one more pass computes the gradient, steps, records both and sets x, and the
   * run stops there when the gradient is small or count has passed iterations.
   */
  function Run(m: Model, stepsize: real, iterations: int, x: Vector, xTraj: seq<Vector>, gradTraj: seq<Vector>)
    : (r: (seq<Vector>, seq<Vector>))
    requires Lawful(m) && |x| == |m.initial|
    decreases iterations - |xTraj|
  {
    var g := m.grad(xTraj);
    var x' := Sub(x, Scale(stepsize, g));
    if Small(g) || |xTraj| + 1 > iterations then (xTraj + [x'], gradTraj + [g])
    else Run(m, stepsize, iterations, x', xTraj + [x'], gradTraj + [g])
  }

  /** The trajectories `sgd` returns: x_traj and grad_traj. */
  function SgdRun(m: Model, stepsize: real, iterations: int): (r: (seq<Vector>, seq<Vector>))
    requires Lawful(m)
  {
    Run(m, stepsize, iterations, m.initial, [], [])
  }

  /** The parameter before pass k: the model's own for k = 0, else the one pass k - 1 set. */
  function Before(m: Model, xTraj: seq<Vector>, k: nat): Vector
    requires k <= |xTraj|
  {
    if k == 0 then m.initial else xTraj[k - 1]
  }

  /**
   * Pass k read the gradient of the model after the parameters of passes 0 .. k - 1 were set,
   * and moved the parameter against it by stepsize.
   */
  ghost predicate Steps(m: Model, stepsize: real, xTraj: seq<Vector>, gradTraj: seq<Vector>)
    requires Lawful(m)
  {
    && |xTraj| == |gradTraj|
    && forall k {:trigger gradTraj[k]} :: 0 <= k < |xTraj| ==>
         && |Before(m, xTraj, k)| == |m.initial| && gradTraj[k] == m.grad(xTraj[..k])
         && xTraj[k] == Sub(Before(m, xTraj, k), Scale(stepsize, gradTraj[k]))
  }

  /** None of the first n passes stopped the run: its gradient was not small and count had not passed iterations. */
  ghost predicate Continued(iterations: int, gradTraj: seq<Vector>, n: nat)
    requires n <= |gradTraj|
  {
    forall k :: 0 <= k < n ==> !Small(gradTraj[k]) && k + 1 <= iterations
  }

  /** The last pass stopped the run: its gradient was small or count had passed iterations. */
  ghost predicate Stopped(iterations: int, gradTraj: seq<Vector>)
  {
    |gradTraj| >= 1 && (Small(gradTraj[|gradTraj| - 1]) || |gradTraj| > iterations)
  }

  /** From any point the run has reached by its own rule, it goes on by its rule and stops exactly once. */
  lemma {:induction false} RunFacts(m: Model, stepsize: real, iterations: int, x: Vector,
                                    xTraj: seq<Vector>, gradTraj: seq<Vector>)
    requires Lawful(m) && |x| == |m.initial|
    requires Steps(m, stepsize, xTraj, gradTraj) && x == Before(m, xTraj, |xTraj|)
    requires Continued(iterations, gradTraj, |gradTraj|)
    ensures var (xs, gs) := Run(m, stepsize, iterations, x, xTraj, gradTraj);
      Steps(m, stepsize, xs, gs) && Stopped(iterations, gs) && Continued(iterations, gs, |gs| - 1)
    decreases iterations - |xTraj|
  {
    var g := m.grad(xTraj);
    var x' := Sub(x, Scale(stepsize, g));
    var gs1 := gradTraj + [g];
    StepAppend(m, stepsize, xTraj, gradTraj, x', g);
    assert forall k :: 0 <= k < |gradTraj| ==> gs1[k] == gradTraj[k];
    if !(Small(g) || |xTraj| + 1 > iterations) {
      RunFacts(m, stepsize, iterations, x', xTraj + [x'], gs1);
    }
  }

  /**
   * `sgd`: x_traj and grad_traj have one entry per pass and at least one; pass k read the
   * gradient after the parameters of passes 0 .. k - 1 were set and stepped against it; every
   * pass but the last went on and the last stopped, so at most max(1, iterations + 1) passes run.
   */
  lemma SgdRunFacts(m: Model, stepsize: real, iterations: int)
    requires Lawful(m)
    ensures var (xs, gs) := SgdRun(m, stepsize, iterations);
      && Steps(m, stepsize, xs, gs) && Stopped(iterations, gs) && Continued(iterations, gs, |gs| - 1)
      && 1 <= |xs| <= if iterations < 1 then 1 else iterations + 1
  {
    RunFacts(m, stepsize, iterations, m.initial, [], []);
    PassBound(iterations, SgdRun(m, stepsize, iterations).1);
  }

  /** A run that went on until its last pass and stopped there made at most max(1, iterations + 1) passes. */
  lemma PassBound(iterations: int, gs: seq<Vector>)
    requires Stopped(iterations, gs) && Continued(iterations, gs, |gs| - 1)
    ensures |gs| <= if iterations < 1 then 1 else iterations + 1
  {
    if |gs| >= 2 {
      assert !Small(gs[|gs| - 2]) && |gs| - 2 + 1 <= iterations;
    }
  }

  /** Trajectories that follow the rule of `sgd` and stop by it are the ones `sgd` returns. */
  lemma {:induction false} RunUnique(m: Model, stepsize: real, iterations: int, xs: seq<Vector>, gs: seq<Vector>, n: nat)
    requires Lawful(m) && Steps(m, stepsize, xs, gs) && Stopped(iterations, gs) && Continued(iterations, gs, |gs| - 1)
    requires n < |xs|
    ensures |Before(m, xs, n)| == |m.initial|
    ensures Run(m, stepsize, iterations, Before(m, xs, n), xs[..n], gs[..n]) == (xs, gs)
    decreases |xs| - n
  {
    PassOf(m, stepsize, xs, gs, n);
    if n + 1 < |xs| {
      RunUnique(m, stepsize, iterations, xs, gs, n + 1);
    } else {
      assert xs[..n + 1] == xs && gs[..n + 1] == gs;
    }
  }

  /** Pass n of trajectories that follow the rule, as Run makes it. */
  lemma PassOf(m: Model, stepsize: real, xs: seq<Vector>, gs: seq<Vector>, n: nat)
    requires Lawful(m) && Steps(m, stepsize, xs, gs) && n < |xs|
    ensures |Before(m, xs, n)| == |m.initial| && m.grad(xs[..n]) == gs[n]
    ensures Sub(Before(m, xs, n), Scale(stepsize, m.grad(xs[..n]))) == xs[n]
    ensures xs[..n] + [xs[n]] == xs[..n + 1] && gs[..n] + [gs[n]] == gs[..n + 1]
  {
  }

  lemma SgdRunUnique(m: Model, stepsize: real, iterations: int, xs: seq<Vector>, gs: seq<Vector>)
    requires Lawful(m) && Steps(m, stepsize, xs, gs) && Stopped(iterations, gs) && Continued(iterations, gs, |gs| - 1)
    ensures SgdRun(m, stepsize, iterations) == (xs, gs)
  {
    RunUnique(m, stepsize, iterations, xs, gs, 0);
    assert xs[..0] == [] && gs[..0] == [];
  }

  /**
   * `Optimizer::sgd` without the preconditioner: x starts at `get_parameter()`; each pass
   * counts, asks for `grad()`, steps x against it by stepsize, records x and the gradient and
   * hands x to `set_parameter`, and stops once the gradient is small or count passed
   * iterations. eps is not used.
   */
  method Sgd(m: Model, stepsize: real, eps: real, iterations: int) returns (xTraj: seq<Vector>, gradTraj: seq<Vector>)
    requires Lawful(m)
    ensures (xTraj, gradTraj) == SgdRun(m, stepsize, iterations)
  {
    xTraj, gradTraj := [], [];
    var count := 0;
    var x := m.initial;
    var terminate := false;
    while !terminate
      invariant count == |xTraj| == |gradTraj| && |x| == |m.initial|
      invariant Steps(m, stepsize, xTraj, gradTraj) && x == Before(m, xTraj, count)
      invariant !terminate ==> Continued(iterations, gradTraj, count)
      invariant terminate ==> Stopped(iterations, gradTraj) && Continued(iterations, gradTraj, count - 1)
      decreases !terminate, iterations - count
    {
      count := count + 1;
      var grad := m.grad(xTraj);
      x := Sub(x, Scale(stepsize, grad));
      StepAppend(m, stepsize, xTraj, gradTraj, x, grad);
      xTraj := xTraj + [x];
      gradTraj := gradTraj + [grad];
      if Small(grad) || count > iterations {
        terminate := true;
      }
    }
    SgdRunUnique(m, stepsize, iterations, xTraj, gradTraj);
  }

  /** One more pass by the rule keeps Steps. */
  lemma StepAppend(m: Model, stepsize: real, xTraj: seq<Vector>, gradTraj: seq<Vector>, x: Vector, g: Vector)
    requires Lawful(m) && Steps(m, stepsize, xTraj, gradTraj) && |Before(m, xTraj, |xTraj|)| == |m.initial|
    requires g == m.grad(xTraj) && x == Sub(Before(m, xTraj, |xTraj|), Scale(stepsize, g))
    ensures Steps(m, stepsize, xTraj + [x], gradTraj + [g])
  {
    var xs1, gs1 := xTraj + [x], gradTraj + [g];
    forall k | 0 <= k < |xs1|
      ensures |Before(m, xs1, k)| == |m.initial| && gs1[k] == m.grad(xs1[..k])
      ensures xs1[k] == Sub(Before(m, xs1, k), Scale(stepsize, gs1[k]))
    {
      if k < |xTraj| {
        assert Before(m, xs1, k) == Before(m, xTraj, k);
        assert xs1[..k] == xTraj[..k];
      } else {
        assert xs1[..k] == xTraj;
      }
    }
  }
}
