/**
 * The mesh revision of the latent process (src/latent.cpp), written against another
 * revision of the class than latent.h: mu and sigma are vectors over the n_mesh nodes,
 * expanded from theta_mu and theta_sigma by the basis matrices B_mu and B_sigma.
 * It adds the parameter count n_params, the rule that a normal noise freezes mu, the
 * finite-difference gradient numerical_grad over the log-likelihood function_K, and the
 * gradients of theta_mu and theta_sigma.
 */
module LatentMesh {
  import opened Algebra
  import Latents

  /** `n_noise`: the mixing variable always has one parameter. */
  const NNoise: nat := 1

  /** `fix_flag` as the constructor leaves it: the four control flags, except that a normal noise fixes mu. */
  function FixFlags(fixOperator: int, fixMu: int, fixSigma: int, fixNoise: int, varType: string): (flags: seq<int>)
    ensures |flags| == 4
    ensures flags[0] == fixOperator && flags[2] == fixSigma && flags[3] == fixNoise
    ensures flags[1] == (if varType == "normal" then 1 else fixMu)
    ensures varType == "normal" ==> flags[1] != 0
  {
    [fixOperator, if varType == "normal" then 1 else fixMu, fixSigma, fixNoise]
  }

  // ---------------------------------------------------------------------------
  // Finite differences

  /** params with entry i moved by d: `params_add_eps(i) += eps` (d = eps) or `-= eps` (d = -eps). */
  function Perturb(p: Vector, i: nat, d: real): (q: Vector)
    requires i < |p|
    ensures |q| == |p| && q[i] == p[i] + d
    ensures forall j :: 0 <= j < |p| && j != i ==> q[j] == p[j]
  {
    p[i := p[i] + d]
  }

  /** num_g: the forward difference of f at p in direction i. */
  function ForwardDiff(f: Vector -> real, p: Vector, i: nat, eps: real): real
    requires i < |p| && eps != 0.0
  {
    (f(Perturb(p, i, eps)) - f(p)) / eps
  }

  /** num_hess: the central second difference of f at p in direction i. */
  function SecondDiff(f: Vector -> real, p: Vector, i: nat, eps: real): real
    requires i < |p| && eps != 0.0
  {
    PowNonZero(eps, 2);
    (f(Perturb(p, i, -eps)) + f(Perturb(p, i, eps)) - 2.0 * f(p)) / Pow(eps, 2)
  }

  lemma {:induction false} PowNonZero(x: real, k: nat)
    requires x != 0.0
    ensures Pow(x, k) != 0.0
  {
    if k > 0 {
      PowNonZero(x, k - 1);
    }
  }

  /** Entry i of numerical_grad: -num_g / n_mesh, or num_g / num_hess with preconditioning. */
  function NumGradEntry(f: Vector -> real, p: Vector, i: nat, eps: real, usePrecond: bool, nMesh: nat): real
    requires i < |p| && eps != 0.0 && nMesh != 0
    requires usePrecond ==> SecondDiff(f, p, i, eps) != 0.0
  {
    if !usePrecond then -ForwardDiff(f, p, i, eps) / (nMesh as real)
    else ForwardDiff(f, p, i, eps) / SecondDiff(f, p, i, eps)
  }

  /** Moving entry i by d moves a . p by a[i] d. */
  lemma DotPerturb(a: Vector, p: Vector, i: nat, d: real)
    requires |a| == |p| && i < |p|
    ensures Dot(a, Perturb(p, i, d)) == Dot(a, p) + a[i] * d
  {
    DotToPerturb(a, p, i, d, |p|);
  }

  lemma {:induction false} DotToPerturb(a: Vector, p: Vector, i: nat, d: real, n: nat)
    requires |a| == |p| && i < |p| && n <= |p|
    ensures DotTo(a, Perturb(p, i, d), n) == DotTo(a, p, n) + (if i < n then a[i] * d else 0.0)
  {
    if n > 0 {
      DotToPerturb(a, p, i, d, n - 1);
      if n - 1 == i {
        assert a[i] * (p[i] + d) == a[i] * p[i] + a[i] * d;
      }
    }
  }

  /**
   * On a log-likelihood that is affine in the operator parameters, f(x) = c + a . x, the forward
   * difference is exact: numerical_grad without preconditioning returns -a / n_mesh. The central
   * second difference vanishes there, so the preconditioned entry is then undefined.
   */
  lemma NumGradOfAffine(f: Vector -> real, a: Vector, c: real, p: Vector, i: nat, eps: real, nMesh: nat)
    requires forall x :: |x| == |a| ==> f(x) == c + Dot(a, x)
    requires |p| == |a| && i < |p| && eps != 0.0 && nMesh != 0
    ensures ForwardDiff(f, p, i, eps) == a[i]
    ensures NumGradEntry(f, p, i, eps, false, nMesh) == -a[i] / (nMesh as real)
    ensures SecondDiff(f, p, i, eps) == 0.0
  {
    DotPerturb(a, p, i, eps);
    DotPerturb(a, p, i, -eps);
    assert f(Perturb(p, i, eps)) - f(p) == a[i] * eps;
    assert f(Perturb(p, i, -eps)) + f(Perturb(p, i, eps)) - 2.0 * f(p) == 0.0;
    PowNonZero(eps, 2);
  }

  // ---------------------------------------------------------------------------
  // Vector facts used by the gradients

  /** a . 0 = 0. */
  lemma DotZeros(a: Vector)
    ensures Dot(a, Zeros(|a|)) == 0.0
  {
    DotToZeros(a, |a|);
  }

  lemma {:induction false} DotToZeros(a: Vector, n: nat)
    requires n <= |a|
    ensures DotTo(a, Zeros(|a|), n) == 0.0
  {
    if n > 0 {
      DotToZeros(a, n - 1);
    }
  }

  /** (a .* (b .* c)) . r = b . ((a .* c) .* r): the weights can be moved off the basis column. */
  lemma DotRearrange(a: Vector, b: Vector, c: Vector, r: Vector)
    requires |a| == |b| == |c| == |r|
    ensures Dot(Mul(a, Mul(b, c)), r) == Dot(b, Mul(Mul(a, c), r))
  {
    DotToRearrange(a, b, c, r, |a|);
  }

  lemma {:induction false} DotToRearrange(a: Vector, b: Vector, c: Vector, r: Vector, n: nat)
    requires |a| == |b| == |c| == |r| && n <= |a|
    ensures DotTo(Mul(a, Mul(b, c)), r, n) == DotTo(b, Mul(Mul(a, c), r), n)
  {
    if n > 0 {
      DotToRearrange(a, b, c, r, n - 1);
      var k := n - 1;
      Commute(a[k], b[k], c[k], r[k]);
    }
  }

  lemma Commute(x: real, y: real, z: real, w: real)
    ensures (x * (y * z)) * w == y * ((x * z) * w)
  {
  }

  /** Entry-wise x^-2 of a positive vector (`sigma.array().pow(-2)`). */
  function PowNegVec(v: Vector, k: nat): (r: Vector)
    requires Positive(v)
    ensures |r| == |v| && forall i :: 0 <= i < |v| ==> r[i] == PowNeg(v[i], k)
  {
    seq(|v|, i requires 0 <= i < |v| => PowNeg(v[i], k))
  }

  /** The n-vector of ones (`VectorXd::Constant(n, 1)`). */
  function Ones(n: nat): (r: Vector)
    ensures |r| == n && forall i :: 0 <= i < n ==> r[i] == 1.0
  {
    seq(n, i => 1.0)
  }

  /** M^T v, one column at a time. */
  function TransposeTimes(M: Matrix, cols: nat, v: Vector): (r: Vector)
    requires IsMatrix(M, |v|, cols)
    ensures |r| == cols && forall l :: 0 <= l < cols ==> r[l] == Dot(Column(M, l), v)
  {
    seq(cols, l requires 0 <= l < cols => Dot(Column(M, l), v))
  }

  // ---------------------------------------------------------------------------
  // The class

  class MeshLatent {
    const nMesh: nat
    const BMu: Matrix
    const BSigma: Matrix
    const nMu: nat
    const nSigma: nat
    const h: Vector
    const usePrecond: bool
    const numerGrad: bool
    const eps: real
    const varType: string
    const fixFlag: seq<int>
    const nOpe: nat
    const nNoise: nat
    const nParams: nat

    /** The operator's current K. */
    var K: Matrix
    var W: Vector
    var prevW: Vector
    var mu: Vector
    var sigma: Vector
    // The mixing variable's state (var.h is not part of this model).
    var V: Vector
    var prevV: Vector

    /** Sizes agree with n_mesh, n_mu and n_sigma; V, prevV and sigma are positive. */
    ghost predicate Valid()
      reads this
    {
      && nMesh > 0
      && IsMatrix(BMu, nMesh, nMu) && IsMatrix(BSigma, nMesh, nSigma)
      && IsMatrix(K, nMesh, nMesh)
      && |h| == nMesh && |W| == nMesh && |prevW| == nMesh && |mu| == nMesh
      && |sigma| == nMesh && Positive(sigma)
      && |V| == nMesh && |prevV| == nMesh && Positive(V) && Positive(prevV)
    }

    /**
     * The constructor: n_mu and n_sigma are the column counts of B_mu and B_sigma, eps comes from
     * the control list, n_params = n_ope + n_mu + n_sigma + 1, and var_type "normal" fixes mu.
     * mu and sigma (what set_theta_mu and set_theta_sigma make of the starting values), the operator's
     * K and the starting V are given. Eigen leaves W and prevW uninitialised; here they start at 0.
     */
    constructor (nMesh: nat, BMu: Matrix, nMu: nat, BSigma: Matrix, nSigma: nat, h: Vector,
                 fixOperator: int, fixMu: int, fixSigma: int, fixNoise: int,
                 usePrecond: bool, numerGrad: bool, eps: real, nOpe: nat, varType: string,
                 mu0: Vector, sigma0: Vector, K0: Matrix, V0: Vector)
      requires nMesh > 0 && IsMatrix(BMu, nMesh, nMu) && IsMatrix(BSigma, nMesh, nSigma)
      requires IsMatrix(K0, nMesh, nMesh) && |h| == nMesh
      requires |mu0| == nMesh && |sigma0| == nMesh && Positive(sigma0) && |V0| == nMesh && Positive(V0)
      ensures Valid()
      ensures this.nMesh == nMesh && this.BMu == BMu && this.BSigma == BSigma && this.h == h
      ensures this.nMu == nMu && this.nSigma == nSigma && this.eps == eps
      ensures this.usePrecond == usePrecond && this.numerGrad == numerGrad && this.varType == varType
      ensures fixFlag == FixFlags(fixOperator, fixMu, fixSigma, fixNoise, varType)
      ensures this.nOpe == nOpe && nNoise == NNoise && nParams == nOpe + nMu + nSigma + NNoise
      ensures mu == mu0 && sigma == sigma0 && K == K0 && V == V0 && prevV == V0
      ensures W == Zeros(nMesh) && prevW == Zeros(nMesh)
    {
      this.nMesh, this.BMu, this.BSigma, this.h := nMesh, BMu, BSigma, h;
      this.nMu, this.nSigma := nMu, nSigma;
      this.usePrecond, this.numerGrad, this.eps := usePrecond, numerGrad, eps;
      this.varType := varType;
      this.nOpe := nOpe;
      nNoise := NNoise;
      nParams := nOpe + nMu + nSigma + NNoise;
      fixFlag := FixFlags(fixOperator, fixMu, fixSigma, fixNoise, varType);
      mu, sigma, K := mu0, sigma0, K0;
      V, prevV := V0, V0;
      W, prevW := Zeros(nMesh), Zeros(nMesh);
    }

    /** K W - mu .* (V - h): the residual of the process under the current V. */
    function Residual(): (r: Vector)
      reads this
      requires Valid()
      ensures |r| == nMesh
    {
      Sub(MatVec(K, W), Mul(mu, Sub(V, h)))
    }

    /** K prevW - mu .* (prevV - h): the same residual one sweep back. */
    function PrevResidual(): (r: Vector)
      reads this
      requires Valid()
      ensures |r| == nMesh
    {
      Sub(MatVec(K, prevW), Mul(mu, Sub(prevV, h)))
    }

    /** grad(l) of grad_theta_mu: (V - h) .* (B_mu column l ./ SV) . residual. */
    function MuColumnGrad(sv: Vector, l: nat): real
      reads this
      requires Valid() && |sv| == nMesh && NonZero(sv) && l < nMu
    {
      Dot(Mul(Sub(V, h), Mul(Column(BMu, l), Inverse(sv))), Residual())
    }

    /**
     * `grad_theta_mu` with SV = getSV() (which this revision does not show): grad(l) for every
     * column l of B_mu, scaled by -1 / n_mesh.
     */
    method GradThetaMu(sv: Vector) returns (result: Vector)
      requires Valid() && |sv| == nMesh && NonZero(sv)
      ensures |result| == nMu
      ensures forall l :: 0 <= l < nMu ==> result[l] == -1.0 / (nMesh as real) * MuColumnGrad(sv, l)
    {
      var grad := Zeros(nMu);
      var l := 0;
      while l < nMu
        invariant 0 <= l <= nMu && |grad| == nMu
        invariant forall j :: 0 <= j < l ==> grad[j] == MuColumnGrad(sv, j)
      {
        var col := Column(BMu, l);
        grad := grad[l := Dot(Mul(Sub(V, h), Mul(col, Inverse(sv))), Sub(MatVec(K, W), Mul(mu, Sub(V, h))))];
        l := l + 1;
      }
      result := Scale(-1.0 / (nMesh as real), grad);
    }

    /** The mu gradient in the transposed form of the sigma branch: grad = B_mu^T ((V - h) ./ SV .* residual). */
    lemma MuGradTransposed(sv: Vector)
      requires Valid() && |sv| == nMesh && NonZero(sv)
      ensures forall l :: 0 <= l < nMu ==>
        (MuColumnGrad(sv, l) == TransposeTimes(BMu, nMu, Mul(Mul(Sub(V, h), Inverse(sv)), Residual()))[l])
    {
      forall l | 0 <= l < nMu
        ensures MuColumnGrad(sv, l) == TransposeTimes(BMu, nMu, Mul(Mul(Sub(V, h), Inverse(sv)), Residual()))[l]
      {
        DotRearrange(Sub(V, h), Column(BMu, l), Inverse(sv), Residual());
      }
    }

    /** With no residual (K W = mu .* (V - h)) every mu gradient is 0. */
    lemma MuGradZeroAtFit(sv: Vector)
      requires Valid() && |sv| == nMesh && NonZero(sv)
      requires Residual() == Zeros(nMesh)
      ensures forall l :: 0 <= l < nMu ==> MuColumnGrad(sv, l) == 0.0
    {
      forall l | 0 <= l < nMu
        ensures MuColumnGrad(sv, l) == 0.0
      {
        DotZeros(Mul(Sub(V, h), Mul(Column(BMu, l), Inverse(sv))));
      }
    }

    /** msq of the stationary branch: sum of residual^2 / V. */
    function Msq(): real
      reads this
      requires Valid()
    {
      Dot(Mul(Residual(), Inverse(V)), Residual())
    }

    /** msq2: the same with prevW and prevV. */
    function Msq2(): real
      reads this
      requires Valid()
    {
      Dot(Mul(PrevResidual(), Inverse(prevV)), PrevResidual())
    }

    /** hess * sigma(0) + grad, the denominator of the stationary branch. */
    function StationaryDenominator(): real
      reads this
      requires Valid()
    {
      var n := nMesh as real;
      Latents.SigmaHessOf(n, sigma[0], Msq2()) * sigma[0] + Latents.SigmaGradOf(n, sigma[0], Msq())
    }

    /** tmp1 of the non-stationary branch: residual^2 / V .* sigma^-2 - 1. */
    function StandardisedExcess(): (t: Vector)
      reads this
      requires Valid()
      ensures |t| == nMesh
    {
      Sub(Mul(Mul(Mul(Residual(), Inverse(V)), Residual()), PowNegVec(sigma, 2)), Ones(nMesh))
    }

    /**
     * `grad_theta_sigma`: with one sigma parameter, grad / (hess * sigma(0) + grad); otherwise
     * -1 / n_mesh B_sigma^T tmp1 (the Hessian this branch computes is not used).
     */
    function GradThetaSigma(): (r: Vector)
      reads this
      requires Valid() && (nSigma == 1 ==> StationaryDenominator() != 0.0)
      ensures |r| == nSigma
    {
      if nSigma == 1 then
        [Quotient(Latents.SigmaGradOf(nMesh as real, sigma[0], Msq()), StationaryDenominator())]
      else
        Scale(-1.0 / (nMesh as real), TransposeTimes(BSigma, nSigma, StandardisedExcess()))
    }

    /** Stationary branch: the gradient vanishes exactly when msq = n_mesh sigma(0)^2. */
    lemma StationarySigmaZeroIff()
      requires Valid() && nSigma == 1 && StationaryDenominator() != 0.0
      ensures GradThetaSigma()[0] == 0.0 <==> Msq() == (nMesh as real) * Pow(sigma[0], 2)
    {
      Latents.SigmaGradZeroIff(nMesh as real, sigma[0], Msq());
      QuotientZero(Latents.SigmaGradOf(nMesh as real, sigma[0], Msq()), StationaryDenominator());
    }

    /**
     * Non-stationary branch: when every squared standardised residual residual^2 / V equals
     * sigma^2 at its node, tmp1 is 0 and so is every gradient entry.
     */
    lemma NonStationarySigmaZeroAtFit()
      requires Valid() && nSigma != 1
      requires forall i :: 0 <= i < nMesh ==> Residual()[i] * Inverse(V)[i] * Residual()[i] == Pow(sigma[i], 2)
      ensures GradThetaSigma() == Zeros(nSigma)
    {
      var t := StandardisedExcess();
      forall i | 0 <= i < nMesh
        ensures t[i] == 0.0
      {
        assert PowNeg(sigma[i], 2) * Pow(sigma[i], 2) == 1.0;
      }
      assert t == Zeros(nMesh);
      forall l | 0 <= l < nSigma
        ensures GradThetaSigma()[l] == 0.0
      {
        DotZeros(Column(BSigma, l));
      }
    }

    /**
     * `numerical_grad` over the log-likelihood f = function_K at the operator's parameters:
     * entry i perturbs parameter i by eps.
     */
    method NumericalGrad(f: Vector -> real, params: Vector) returns (grad: Vector)
      requires Valid() && eps != 0.0 && |params| == nOpe
      requires usePrecond ==> forall i :: 0 <= i < |params| ==> SecondDiff(f, params, i, eps) != 0.0
      ensures |grad| == nOpe
      ensures forall i :: 0 <= i < nOpe ==> grad[i] == NumGradEntry(f, params, i, eps, usePrecond, nMesh)
    {
      var val := f(params);
      grad := Zeros(nOpe);
      var i := 0;
      while i < nOpe
        invariant 0 <= i <= nOpe && |grad| == nOpe
        invariant forall j :: 0 <= j < i ==> grad[j] == NumGradEntry(f, params, j, eps, usePrecond, nMesh)
      {
        var paramsAddEps := params[i := params[i] + eps];
        var valAddEps := f(paramsAddEps);
        var numG := (valAddEps - val) / eps;
        if !usePrecond {
          grad := grad[i := -numG / (nMesh as real)];
        } else {
          var paramsMinusEps := params[i := params[i] - eps];
          var valMinusEps := f(paramsMinusEps);
          PowNonZero(eps, 2);
          var numHess := (valMinusEps + valAddEps - 2.0 * val) / Pow(eps, 2);
          assert paramsMinusEps == Perturb(params, i, -eps);
          assert numHess == SecondDiff(f, params, i, eps);
          grad := grad[i := numG / numHess];
        }
        i := i + 1;
      }
    }
  }
}
