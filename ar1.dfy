/**
 * The AR(1) latent process (src/latents/ar1.h): its operator K = alpha C + G, with
 * dK = C (analytic or as a forward difference), and the logistic change of variable
 * alpha = th2a(theta) in (-1, 1) that the optimiser works through.
 * ar1.h is written against another revision of the operator base class (a parameter
 * vector parameter_K instead of a kappa); ArOperator models that revision.
 */
module Ar1 {
  import opened Algebra
  import opened Transcendental
  import LatentMesh

  /** The step of the numerical dK. */
  const NumDKEps: real := 0.01

  // ---------------------------------------------------------------------------
  // The change of variable, at the level of e = exp(th) > 0

  /** `th2a` with e = exp(th): -1 + 2e / (1 + e). */
  function Th2aOf(e: real): (k: real)
    requires e > 0.0
    ensures -1.0 < k < 1.0
    ensures 1.0 + k == Quotient(2.0 * e, 1.0 + e) && 1.0 - k == Quotient(2.0, 1.0 + e)
  {
    var q := Quotient(2.0 * e, 1.0 + e);
    assert q * (1.0 + e) == 2.0 * e;
    assert Quotient(2.0, 1.0 + e) * (1.0 + e) == 2.0;
    -1.0 + q
  }

  /** The ratio whose logarithm `a2th` takes: (-1 - k) / (-1 + k). */
  function A2thRatio(k: real): real
    requires k != 1.0
  {
    Quotient(-1.0 - k, -1.0 + k)
  }

  /** The ratio inside `a2th`, at k = th2a(th), is exactly e = exp(th). */
  lemma RatioOfTh2a(e: real)
    requires e > 0.0
    ensures A2thRatio(Th2aOf(e)) == e
  {
    var k := Th2aOf(e);
    var r := A2thRatio(k);
    assert r * (-1.0 + k) == -1.0 - k;
    RatioAlgebra(e, Quotient(2.0 * e, 1.0 + e), r);
  }

  lemma RatioAlgebra(e: real, q: real, r: real)
    requires e > 0.0 && q * (1.0 + e) == 2.0 * e
    requires r * (-2.0 + q) == -q
    ensures r == e
  {
    assert (-2.0 + q) * (1.0 + e) == -2.0;
    assert r * (-2.0) == -q * (1.0 + e);
  }

  /** The ratio is positive exactly on (-1, 1), the range of th2a. */
  lemma RatioPositive(k: real)
    requires -1.0 < k < 1.0
    ensures A2thRatio(k) > 0.0
  {
    var r := A2thRatio(k);
    assert r * (-1.0 + k) == -1.0 - k;
    if r <= 0.0 {
      NonPositiveTimesNegative(r, -1.0 + k);
    }
  }

  lemma NonPositiveTimesNegative(a: real, b: real)
    requires a <= 0.0 && b < 0.0
    ensures a * b >= 0.0
  {
  }

  /** For k in (-1, 1), th2a undoes the ratio: k = th2a at e = ratio(k). */
  lemma Th2aOfRatio(k: real)
    requires -1.0 < k < 1.0
    ensures A2thRatio(k) > 0.0 && Th2aOf(A2thRatio(k)) == k
  {
    RatioPositive(k);
    var r := A2thRatio(k);
    var q := Quotient(2.0 * r, 1.0 + r);
    assert r * (-1.0 + k) == -1.0 - k;
    assert q * (1.0 + r) == 2.0 * r;
    InverseAlgebra(k, r, q);
  }

  lemma InverseAlgebra(k: real, r: real, q: real)
    requires r > 0.0 && r * (-1.0 + k) == -1.0 - k && q * (1.0 + r) == 2.0 * r
    ensures -1.0 + q == k
  {
    assert r * (1.0 - k) == 1.0 + k;
    assert (1.0 + r) * (1.0 - k) == 2.0;
    assert q * 2.0 == 2.0 * r * (1.0 - k);
  }

  /** `th2a(th)` = -1 + 2 exp(th) / (1 + exp(th)). */
  function Th2a(tr: Transcendental, th: real): (k: real)
    ensures -1.0 < k < 1.0
  {
    Th2aOf(Exp(tr, th))
  }

  /** `a2th(k)` = log((-1 - k) / (-1 + k)). */
  function A2th(tr: Transcendental, k: real): real
    requires k != 1.0
  {
    Log(tr, A2thRatio(k))
  }

  /** a2th undoes th2a (given that log undoes exp). */
  lemma A2thOfTh2a(tr: Transcendental, th: real)
    ensures A2th(tr, Th2a(tr, th)) == th
  {
    RatioOfTh2a(Exp(tr, th));
  }

  /** th2a undoes a2th on (-1, 1) (given that exp undoes log on the positive reals). */
  lemma Th2aOfA2th(tr: Transcendental, k: real)
    requires -1.0 < k < 1.0
    ensures Th2a(tr, A2th(tr, k)) == k
  {
    Th2aOfRatio(k);
  }

  /** `da = 2 exp(th) / (1 + exp(th))^2`, the derivative of th2a, with e = exp(th). */
  function DaOf(e: real): (d: real)
    requires e > 0.0
    ensures d > 0.0
  {
    2.0 * Quotient(e, Pow(1.0 + e, 2))
  }

  /** da written through alpha = th2a(th): da = (1 + alpha)(1 - alpha) / 2. */
  lemma DaThroughAlpha(e: real)
    requires e > 0.0
    ensures DaOf(e) == (1.0 + Th2aOf(e)) * (1.0 - Th2aOf(e)) / 2.0
  {
    var w := 1.0 + e;
    var p, u, v := Pow(w, 2), Quotient(2.0 * e, w), Quotient(2.0, w);
    assert Pow(w, 1) == w;
    assert p == w * Pow(w, 1);
    assert u * w == 2.0 * e && v * w == 2.0;
    DaAlgebra(e, w, p, Quotient(e, p), u, v);
  }

  lemma DaAlgebra(e: real, w: real, p: real, d: real, u: real, v: real)
    requires w > 0.0 && p == w * w && d * p == e
    requires u * w == 2.0 * e && v * w == 2.0
    ensures 2.0 * d == u * v / 2.0
  {
    assert u * v * p == (u * w) * (v * w);
    assert u * v * p == 4.0 * e;
  }

  // ---------------------------------------------------------------------------
  // The operator

  class ArOperator {
    const G: Matrix
    const C: Matrix
    const n: nat
    const useNumDK: bool
    var parameterK: Vector
    var K: Matrix
    var dK: Matrix
    var d2K: Matrix

    /** The matrices agree with the parameter alpha: K = alpha C + G, dK = C, d2K = 0 C. */
    ghost predicate Valid()
      reads this
    {
      && IsMatrix(G, n, n) && IsMatrix(C, n, n)
      && |parameterK| == 1
      && K == GetK(parameterK)
      && dK == C
      && d2K == MatScale(0.0, C)
    }

    /** The constructor takes G and C; the matrices are set by `set_parameter`. */
    constructor (G: Matrix, C: Matrix, n: nat, useNumDK: bool)
      requires IsMatrix(G, n, n) && IsMatrix(C, n, n)
      ensures this.G == G && this.C == C && this.n == n && this.useNumDK == useNumDK
      ensures parameterK == [] && K == [] && dK == [] && d2K == []
    {
      this.G, this.C, this.n, this.useNumDK := G, C, n, useNumDK;
      parameterK, K, dK, d2K := [], [], [], [];
    }

    /** `getK(alpha)` = alpha(0) C + G. */
    function GetK(alpha: Vector): (K: Matrix)
      requires |alpha| == 1 && IsMatrix(G, n, n) && IsMatrix(C, n, n)
      ensures IsMatrix(K, n, n)
      ensures forall r, c :: 0 <= r < n && 0 <= c < n ==> K[r][c] == alpha[0] * C[r][c] + G[r][c]
    {
      Affine(alpha[0], C, G)
    }

    /** `get_dK(0, alpha)` = C, whatever alpha is. */
    function GetDK(index: int, alpha: Vector): Matrix
      requires index == 0
    {
      C
    }

    /** get_dK is the derivative of getK: every difference quotient of getK in alpha is get_dK. */
    lemma GetDKIsDerivative(alpha: Vector, d: real)
      requires |alpha| == 1 && d != 0.0 && IsMatrix(G, n, n) && IsMatrix(C, n, n)
      ensures DiffQuotient(GetK([alpha[0] + d]), GetK(alpha), d) == GetDK(0, alpha)
    {
      AffineDifference(alpha[0], d, C, G);
    }

    /** `set_parameter(alpha)`: stores alpha, K = getK(alpha), dK = C, d2K = 0 C; then the numerical dK when asked for. */
    method SetParameter(alpha: Vector)
      requires |alpha| == 1 && IsMatrix(G, n, n) && IsMatrix(C, n, n)
      modifies this
      ensures Valid()
      ensures parameterK == alpha && K == GetK(alpha) && dK == C && d2K == MatScale(0.0, C)
    {
      parameterK := alpha;
      K := GetK(alpha);
      dK := GetDK(0, parameterK);
      d2K := MatScale(0.0, C);
      if useNumDK {
        UpdateNumDK();
      }
    }

    /** `update_num_dK`: dK = ((alpha + 0.01) C + G - K) / 0.01, which is C again. */
    method UpdateNumDK()
      requires |parameterK| == 1 && IsMatrix(G, n, n) && IsMatrix(C, n, n)
      requires |K| == n && forall r :: 0 <= r < n ==> |K[r]| == n
      modifies this
      ensures dK == DiffQuotient(Affine(old(parameterK)[0] + NumDKEps, C, G), old(K), NumDKEps)
      ensures old(K) == GetK(old(parameterK)) ==> dK == C
      ensures parameterK == old(parameterK) && K == old(K) && d2K == old(d2K)
    {
      var alpha := parameterK[0];
      var kAddEps := Affine(alpha + NumDKEps, C, G);
      dK := DiffQuotient(kAddEps, K, NumDKEps);
      AffineDifference(alpha, NumDKEps, C, G);
    }
  }

  // ---------------------------------------------------------------------------
  // The AR latent process: its theta_K and the analytic gradient

  /**
   * `tmp` of grad_theta_K: (dK W ./ SV) . (K W + (h - V) .* mu). It is 0 when K W meets the
   * mean (V - h) .* mu, whatever dK is.
   */
  function GradTmp(K: Matrix, dK: Matrix, W: Vector, SV: Vector, h: Vector, V: Vector, mu: Vector): (tmp: real)
    requires |SV| == |h| == |V| == |mu| == |K| == |dK| && NonZero(SV)
    requires forall r :: 0 <= r < |K| ==> |K[r]| == |W|
    requires forall r :: 0 <= r < |dK| ==> |dK[r]| == |W|
    ensures Add(MatVec(K, W), Mul(Sub(h, V), mu)) == Zeros(|K|) ==> tmp == 0.0
  {
    var u := Mul(MatVec(dK, W), Inverse(SV));
    LatentMesh.DotZeros(u);
    Dot(u, Add(MatVec(K, W), Mul(Sub(h, V), mu)))
  }

  /**
   * The non-preconditioned analytic branch of `grad_theta_K` at the value level:
   * -(trace - tmp) da / n_mesh, with da at th = a2th(a) for the current parameter a.
   */
  function GradThetaKOf(tr: Transcendental, a: real, trace: real, tmp: real, nMesh: nat): real
    requires a != 1.0 && nMesh != 0
  {
    -(trace - tmp) * DaOf(Exp(tr, A2th(tr, a))) / (nMesh as real)
  }

  /** The gradient of the non-preconditioned branch in alpha: -(trace - tmp) / n_mesh. */
  function AlphaGrad(trace: real, tmp: real, nMesh: nat): real
    requires nMesh != 0
  {
    -(trace - tmp) / (nMesh as real)
  }

  /** d alpha / d theta written in alpha: (1 + alpha)(1 - alpha) / 2. */
  function ChainFactor(a: real): real
  {
    (1.0 + a) * (1.0 - a) / 2.0
  }

  /**
   * For an operator parameter a in (-1, 1) the chain-rule factor needs no exp or log:
   * da = (1 + a)(1 - a) / 2 > 0, so the gradient in theta is the gradient in alpha,
   * -(trace - tmp) / n_mesh, scaled by that factor; it is 0 exactly when trace = tmp.
   */
  lemma GradThetaKChainRule(tr: Transcendental, a: real, trace: real, tmp: real, nMesh: nat)
    requires -1.0 < a < 1.0 && nMesh != 0
    ensures ChainFactor(a) > 0.0
    ensures GradThetaKOf(tr, a, trace, tmp, nMesh) == AlphaGrad(trace, tmp, nMesh) * ChainFactor(a)
    ensures GradThetaKOf(tr, a, trace, tmp, nMesh) == 0.0 <==> trace == tmp
  {
    RatioPositive(a);
    var e := Exp(tr, A2th(tr, a));
    assert e == A2thRatio(a);
    Th2aOfRatio(a);
    DaThroughAlpha(e);
    assert ChainFactor(a) > 0.0 by { PositiveProduct(1.0 + a, 1.0 - a); }
    ChainAlgebra(trace - tmp, DaOf(e), ChainFactor(a), nMesh as real);
  }

  /**
   * The chain rule at a: on (-1, 1) the gradient in theta is the gradient in alpha times the
   * positive factor, and it is 0 exactly when trace = tmp.
   */
  ghost predicate ChainRule(tr: Transcendental, a: real, trace: real, tmp: real, nMesh: nat)
    requires a != 1.0 && nMesh != 0
  {
    -1.0 < a < 1.0 ==>
      && ChainFactor(a) > 0.0
      && GradThetaKOf(tr, a, trace, tmp, nMesh) == AlphaGrad(trace, tmp, nMesh) * ChainFactor(a)
      && (GradThetaKOf(tr, a, trace, tmp, nMesh) == 0.0 <==> trace == tmp)
  }

  lemma ChainRuleHolds(tr: Transcendental, a: real, trace: real, tmp: real, nMesh: nat)
    requires a != 1.0 && nMesh != 0
    ensures ChainRule(tr, a, trace, tmp, nMesh)
  {
    if -1.0 < a < 1.0 {
      GradThetaKChainRule(tr, a, trace, tmp, nMesh);
    }
  }

  /** With D = d > 0 and n non-zero: -x D / n = (-x / n) d, which is 0 exactly when x is. */
  lemma ChainAlgebra(x: real, D: real, d: real, n: real)
    requires D == d && d > 0.0 && n != 0.0
    ensures -x * D / n == (-x / n) * d
    ensures -x * D / n == 0.0 <==> x == 0.0
  {
    ScaleOrder(x, d, n);
    if (-x / n) * d == 0.0 {
      assert -x / n == 0.0;
      assert -x == (-x / n) * n;
    }
  }

  lemma ScaleOrder(x: real, d: real, n: real)
    requires n != 0.0
    ensures -x * d / n == (-x / n) * d
  {
  }

  /** K W + (h - V) .* mu, the second factor of tmp, is the latent's residual K W - mu .* (V - h). */
  lemma ResidualIsTmpFactor(l: LatentMesh.MeshLatent)
    requires l.Valid()
    ensures Add(MatVec(l.K, l.W), Mul(Sub(l.h, l.V), l.mu)) == l.Residual()
  {
    var u, r := Add(MatVec(l.K, l.W), Mul(Sub(l.h, l.V), l.mu)), l.Residual();
    forall i | 0 <= i < |u|
      ensures u[i] == r[i]
    {
      assert u[i] == MatVec(l.K, l.W)[i] + (l.h[i] - l.V[i]) * l.mu[i];
      assert r[i] == MatVec(l.K, l.W)[i] - l.mu[i] * (l.V[i] - l.h[i]);
    }
  }

  /**
   * The AR latent: its operator, through `get_theta_K` and `set_theta_K`, and the latent state
   * it inherits (the latent.cpp revision, as a MeshLatent), which `grad_theta_K` reads. The trace
   * that set_theta_K refreshes is not part of this model.
   */
  class Ar {
    const ope: ArOperator
    const base: LatentMesh.MeshLatent
    const tr: Transcendental
    const numerGrad: bool

    /**
     * One K: the latent's `getK()` is the operator's (latent.h:93), so the inherited latent's K is
     * always the operator's current K.
     */
    ghost predicate Valid()
      reads this, ope, base
    {
      ope.Valid() && base.Valid() && ope.n == base.nMesh && base.K == ope.K
    }

    /**
     * The constructor hands the starting theta_K to the operator's set_parameter as is; the
     * inherited latent then sees the operator's K, and its W, mu, sigma and V are kept.
     */
    constructor (ope: ArOperator, base: LatentMesh.MeshLatent, tr: Transcendental, numerGrad: bool, thetaK0: Vector)
      requires |thetaK0| == 1 && IsMatrix(ope.G, ope.n, ope.n) && IsMatrix(ope.C, ope.n, ope.n)
      requires base.Valid() && base.nMesh == ope.n
      modifies ope, base
      ensures Valid() && ope.parameterK == thetaK0 && base.K == ope.GetK(thetaK0)
      ensures this.ope == ope && this.base == base && this.tr == tr && this.numerGrad == numerGrad
      ensures base.W == old(base.W) && base.prevW == old(base.prevW) && base.mu == old(base.mu)
      ensures base.sigma == old(base.sigma) && base.V == old(base.V) && base.prevV == old(base.prevV)
    {
      this.ope, this.base, this.tr, this.numerGrad := ope, base, tr, numerGrad;
      new;
      ope.SetParameter(thetaK0);
      base.K := ope.K;
    }

    /** `get_theta_K` = [a2th(alpha)]; on (-1, 1), th2a of it gives alpha back. */
    function GetThetaK(): (theta: Vector)
      reads ope
      requires |ope.parameterK| == 1 && ope.parameterK[0] != 1.0
      ensures |theta| == 1
      ensures -1.0 < ope.parameterK[0] < 1.0 ==> Th2a(tr, theta[0]) == ope.parameterK[0]
    {
      var alpha := ope.parameterK[0];
      if -1.0 < alpha < 1.0 then Th2aOfA2th(tr, alpha); [A2th(tr, alpha)]
      else [A2th(tr, alpha)]
    }

    /** tmp of `grad_theta_K` from the operator's K and dK and the latent's W, h, V and mu, with SV = getSV(). */
    function Tmp(sv: Vector): real
      reads ope, base
      requires ope.Valid() && base.Valid() && ope.n == base.nMesh && |sv| == base.nMesh && NonZero(sv)
    {
      GradTmp(ope.K, ope.dK, base.W, sv, base.h, base.V, base.mu)
    }

    /**
     * `grad_theta_K` on its non-preconditioned analytic branch: -(trace - tmp) da / n_mesh. For
     * alpha in (-1, 1) it is the gradient in alpha times (1 + alpha)(1 - alpha)/2 > 0, it is 0
     * exactly when trace = tmp, and it is -trace da / n_mesh when the latent's residual
     * K W - mu (V - h) is 0.
     */
    function GradThetaK(sv: Vector, trace: real): (g: real)
      reads this, ope, base
      requires Valid() && ope.parameterK[0] != 1.0
      requires |sv| == base.nMesh && NonZero(sv)
      ensures g == GradThetaKOf(tr, ope.parameterK[0], trace, Tmp(sv), base.nMesh)
      ensures ChainRule(tr, ope.parameterK[0], trace, Tmp(sv), base.nMesh)
      ensures base.Residual() == Zeros(base.nMesh) ==> Tmp(sv) == 0.0
    {
      ResidualIsTmpFactor(base);
      ChainRuleHolds(tr, ope.parameterK[0], trace, Tmp(sv), base.nMesh);
      GradThetaKOf(tr, ope.parameterK[0], trace, Tmp(sv), base.nMesh)
    }

    /**
     * `set_theta_K`: the operator parameter becomes th2a(theta(0)); get_theta_K then returns theta,
     * and the inherited latent sees the new K, with its W, mu, sigma and V kept.
     */
    method SetThetaK(theta: Vector)
      requires |theta| == 1 && Valid()
      modifies ope, base
      ensures Valid()
      ensures ope.parameterK == [Th2a(tr, theta[0])] && base.K == ope.GetK(ope.parameterK)
      ensures -1.0 < ope.parameterK[0] < 1.0 && GetThetaK() == theta
      ensures base.W == old(base.W) && base.prevW == old(base.prevW) && base.mu == old(base.mu)
      ensures base.sigma == old(base.sigma) && base.V == old(base.V) && base.prevV == old(base.prevV)
    {
      var alpha := Th2a(tr, theta[0]);
      ope.SetParameter([alpha]);
      base.K := ope.K;
      A2thOfTh2a(tr, theta[0]);
    }
  }
}
