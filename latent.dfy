/**
 * One latent process as src/latent.h declares it: a process state W (and the draw before
 * it, prevW), the mixing variable's V and prevV, a mean mu and a scale sigma, an operator,
 * and four freeze flags over a fixed layout of four parameters
 *   slot 0 = theta_kappa, slot 1 = mu, slot 2 = theta_sigma = log(sigma), slot 3 = theta_var.
 *
 * The pure expressions of the class (getTheta, getGrad, getMean, getSV, grad_mu,
 * grad_theta_sigma) are functions of a value view of the object (LatentConfig, State); the class
 * Latent holds the fields and its mutators are proved against those functions.
 */
module Latents {
  import opened Algebra
  import opened Transcendental
  import Operators

  const KappaSlot: nat := 0
  const MuSlot: nat := 1
  const SigmaSlot: nat := 2
  const VarSlot: nat := 3

  /** `n_paras {4}`: the length of every latent's parameter block. */
  const NParas: nat := 4

  /** The parts of a latent process that never change after construction. */
  datatype LatentConfig = LatentConfig(
    nReg: nat,
    optKappa: bool, optMu: bool, optSigma: bool, optVar: bool,
    h: Vector,
    structure: Operators.Structure,
    tr: Transcendental)

  /** The parts that change: the operator's kappa and matrices, mu, sigma, W, V and theta_var. */
  datatype State = State(
    kappa: real, K: Matrix, dK: Matrix, d2K: Matrix,
    mu: real, sigma: real,
    W: Vector, prevW: Vector,
    V: Vector, prevV: Vector,
    thetaVar: real)

  /** The flag that decides whether parameter slot k is optimised. */
  function Flag(cfg: LatentConfig, k: nat): bool
    requires k < NParas
  {
    [cfg.optKappa, cfg.optMu, cfg.optSigma, cfg.optVar][k]
  }

  /** What holds of every latent between calls: operator matrices consistent with kappa, h all ones, sizes n_reg, V > 0, sigma > 0. */
  ghost predicate Inv(cfg: LatentConfig, s: State)
  {
    OperatorAgrees(cfg, s) && Sized(cfg, s) && Signs(s)
  }

  /** The operator's matrices are those of the GC variant at the current kappa. */
  ghost predicate OperatorAgrees(cfg: LatentConfig, s: State)
  {
    && Operators.WellShaped(cfg.structure) && cfg.structure.n == cfg.nReg
    && s.K == Operators.GcK(cfg.structure, s.kappa)
    && s.dK == cfg.structure.C
    && s.d2K == MatScale(0.0, cfg.structure.C)
  }

  /** h is n_reg ones; W, prevW, V and prevV have n_reg entries. */
  ghost predicate Sized(cfg: LatentConfig, s: State)
  {
    && |cfg.h| == cfg.nReg && (forall i :: 0 <= i < cfg.nReg ==> cfg.h[i] == 1.0)
    && |s.W| == cfg.nReg && |s.prevW| == cfg.nReg
    && |s.V| == cfg.nReg && |s.prevV| == cfg.nReg
  }

  ghost predicate Signs(s: State)
  {
    s.sigma > 0.0 && Positive(s.V) && Positive(s.prevV)
  }

  // ---------------------------------------------------------------------------
  // Parameters

  /** `getTheta`: the four slots in their fixed order. */
  function Theta(cfg: LatentConfig, s: State): (theta: Vector)
    ensures |theta| == NParas
    ensures theta[KappaSlot] == s.kappa && theta[MuSlot] == s.mu
    ensures theta[SigmaSlot] == cfg.tr.log(s.sigma) && theta[VarSlot] == s.thetaVar
  {
    [s.kappa, s.mu, cfg.tr.log(s.sigma), s.thetaVar]
  }

  /**
   * `setTheta`: every flagged slot is written (kappa through the operator's setKappa, sigma
   * as exp(theta_sigma)); an unflagged slot keeps its value, and nothing but the parameters
   * changes.
   */
  function WithTheta(cfg: LatentConfig, s: State, theta: Vector): (s': State)
    requires Inv(cfg, s) && |theta| == NParas
    ensures Inv(cfg, s')
    ensures forall k :: 0 <= k < NParas ==>
      Theta(cfg, s')[k] == if Flag(cfg, k) then theta[k] else Theta(cfg, s)[k]
    ensures s'.W == s.W && s'.prevW == s.prevW && s'.V == s.V && s'.prevV == s.prevV
    ensures s'.dK == s.dK && s'.d2K == s.d2K
  {
    var kappa := if cfg.optKappa then theta[KappaSlot] else s.kappa;
    s.(kappa := kappa,
       K := if cfg.optKappa then Operators.GcK(cfg.structure, kappa) else s.K,
       mu := if cfg.optMu then theta[MuSlot] else s.mu,
       sigma := if cfg.optSigma then Exp(cfg.tr, theta[SigmaSlot]) else s.sigma,
       thetaVar := if cfg.optVar then theta[VarSlot] else s.thetaVar)
  }

  /** Writing back what getTheta read changes nothing, whatever the flags. */
  lemma {:induction false} WithThetaOfTheta(cfg: LatentConfig, s: State)
    requires Inv(cfg, s)
    ensures WithTheta(cfg, s, Theta(cfg, s)) == s
  {
    var s' := WithTheta(cfg, s, Theta(cfg, s));
    assert cfg.tr.exp(cfg.tr.log(s.sigma)) == s.sigma;
    assert s'.sigma == s.sigma;
  }

  // ---------------------------------------------------------------------------
  // Mean and variance

  /** `getMean`: mu (V - h), which is mu (V - 1) since h is all ones. */
  function Mean(cfg: LatentConfig, s: State): (m: Vector)
    requires Inv(cfg, s)
    ensures |m| == cfg.nReg
    ensures forall i :: 0 <= i < cfg.nReg ==> m[i] == s.mu * (s.V[i] - 1.0)
  {
    Scale(s.mu, Sub(s.V, cfg.h))
  }

  /** `getSV`: V sigma^2, positive everywhere. */
  function SV(cfg: LatentConfig, s: State): (sv: Vector)
    requires Inv(cfg, s)
    ensures |sv| == cfg.nReg && Positive(sv)
    ensures forall i :: 0 <= i < cfg.nReg ==> sv[i] == Pow(s.sigma, 2) * s.V[i]
  {
    ScalePositive(Pow(s.sigma, 2), s.V);
    Scale(Pow(s.sigma, 2), s.V)
  }

  // ---------------------------------------------------------------------------
  // Gradients

  /** K W: the operator applied to the current process state. */
  function KW(cfg: LatentConfig, s: State): (r: Vector)
    requires Inv(cfg, s)
    ensures |r| == cfg.nReg
  {
    MatVec(s.K, s.W)
  }

  /** The numerator of grad_mu, from the current V and W: sigma^-2 ((V-h)/V) . (K W - mu (V-h)). */
  function MuNumerator(cfg: LatentConfig, s: State): real
    requires Inv(cfg, s)
  {
    MuNumeratorOf(s.V, cfg.h, KW(cfg, s), s.mu, s.sigma)
  }

  function MuNumeratorOf(V: Vector, h: Vector, kw: Vector, mu: real, sigma: real): real
    requires |V| == |h| == |kw| && Positive(V) && sigma > 0.0
  {
    var vmh := Sub(V, h);
    PowNeg(sigma, 2) * Dot(Mul(vmh, Inverse(V)), Sub(kw, Scale(mu, vmh)))
  }

  /** The denominator of grad_mu, from the previous V only: -sigma^-2 ((prevV-h)/prevV) . (prevV-h). */
  function MuHess(cfg: LatentConfig, s: State): real
    requires Inv(cfg, s)
  {
    MuHessOf(s.prevV, cfg.h, s.sigma)
  }

  function MuHessOf(prevV: Vector, h: Vector, sigma: real): real
    requires |prevV| == |h| && Positive(prevV) && sigma > 0.0
  {
    var pmh := Sub(prevV, h);
    -PowNeg(sigma, 2) * Dot(Mul(pmh, Inverse(prevV)), pmh)
  }

  /** `grad_mu`: the gradient in mu scaled by the lagged Hessian. */
  function GradMu(cfg: LatentConfig, s: State): real
    requires Inv(cfg, s) && MuHess(cfg, s) != 0.0
  {
    Quotient(MuNumerator(cfg, s), MuHess(cfg, s))
  }

  /**
   * When the lagged V equals the current V, mu - grad_mu is the weighted least-squares fit
   * of mu to K W, whatever the current mu: the scaled gradient is an exact Newton step.
   */
  lemma GradMuNewtonStep(cfg: LatentConfig, s: State)
    requires Inv(cfg, s) && s.prevV == s.V && MuHess(cfg, s) != 0.0
    ensures var a := Mul(Sub(s.V, cfg.h), Inverse(s.V));
      Dot(a, Sub(s.V, cfg.h)) != 0.0 &&
      s.mu - GradMu(cfg, s) == Dot(a, KW(cfg, s)) / Dot(a, Sub(s.V, cfg.h))
  {
    NewtonStepOf(s.V, cfg.h, KW(cfg, s), s.mu, s.sigma);
  }

  /** GradMuNewtonStep on plain vectors: V (= prevV), h, K W, mu and sigma. */
  lemma NewtonStepOf(V: Vector, h: Vector, kw: Vector, mu: real, sigma: real)
    requires |V| == |h| == |kw| && Positive(V) && sigma > 0.0
    requires MuHessOf(V, h, sigma) != 0.0
    ensures var a := Mul(Sub(V, h), Inverse(V));
      && Dot(a, Sub(V, h)) != 0.0
      && mu - Quotient(MuNumeratorOf(V, h, kw, mu, sigma), MuHessOf(V, h, sigma))
         == Dot(a, kw) / Dot(a, Sub(V, h))
  {
    var vmh := Sub(V, h);
    var a := Mul(vmh, Inverse(V));
    DotLinear(a, kw, mu, vmh);
    NewtonAlgebra(PowNeg(sigma, 2), Dot(a, Sub(kw, Scale(mu, vmh))), Dot(a, kw), mu, Dot(a, vmh));
  }

  /** The real arithmetic behind GradMuNewtonStep. */
  lemma NewtonAlgebra(q: real, x: real, p: real, mu: real, S: real)
    requires -q * S != 0.0 && x == p - mu * S
    ensures S != 0.0 && mu - Quotient(q * x, -q * S) == p / S
  {
    var g := Quotient(q * x, -q * S);
    assert q != 0.0 && S != 0.0;
    assert g * (-q * S) == q * (p - mu * S);
    assert q * (g * S) == q * (mu * S - p);
    assert g * S == mu * S - p;
    assert (mu - g) * S == p;
  }

  /** msq = (K W - mu (V-h))^2 / V summed, from the current V and W. */
  function SigmaMsq(cfg: LatentConfig, s: State): real
    requires Inv(cfg, s)
  {
    var r := Sub(KW(cfg, s), Scale(s.mu, Sub(s.V, cfg.h)));
    Dot(Mul(r, Inverse(s.V)), r)
  }

  /** msq2: the same sum with the previous V (and, in this revision, the current W). */
  function SigmaMsq2(cfg: LatentConfig, s: State): real
    requires Inv(cfg, s)
  {
    var r := Sub(KW(cfg, s), Scale(s.mu, Sub(s.prevV, cfg.h)));
    Dot(Mul(r, Inverse(s.prevV)), r)
  }

  /** The gradient in sigma: -n / sigma + sigma^-3 msq. */
  function SigmaGrad(cfg: LatentConfig, s: State): real
    requires Inv(cfg, s)
  {
    SigmaGradOf(cfg.nReg as real, s.sigma, SigmaMsq(cfg, s))
  }

  function SigmaGradOf(n: real, sg: real, msq: real): real
    requires sg > 0.0
  {
    -n / sg + PowNeg(sg, 3) * msq
  }

  /** The lagged Hessian in sigma: n / sigma^2 - 3 sigma^-4 msq2. */
  function SigmaHess(cfg: LatentConfig, s: State): real
    requires Inv(cfg, s)
  {
    SigmaHessOf(cfg.nReg as real, s.sigma, SigmaMsq2(cfg, s))
  }

  function SigmaHessOf(n: real, sg: real, msq2: real): real
    requires sg > 0.0
  {
    n / Pow(sg, 2) - 3.0 * PowNeg(sg, 4) * msq2
  }

  function SigmaDenominator(cfg: LatentConfig, s: State): real
    requires Inv(cfg, s)
  {
    SigmaHess(cfg, s) * s.sigma + SigmaGrad(cfg, s)
  }

  /** `grad_theta_sigma`: grad / (hess * sigma + grad). */
  function GradThetaSigma(cfg: LatentConfig, s: State): real
    requires Inv(cfg, s) && SigmaDenominator(cfg, s) != 0.0
  {
    Quotient(SigmaGrad(cfg, s), SigmaDenominator(cfg, s))
  }

  /** The sigma gradient vanishes exactly when the current residuals fit sigma: msq = n sigma^2. */
  lemma GradThetaSigmaZeroIff(cfg: LatentConfig, s: State)
    requires Inv(cfg, s) && SigmaDenominator(cfg, s) != 0.0
    ensures GradThetaSigma(cfg, s) == 0.0 <==> SigmaMsq(cfg, s) == (cfg.nReg as real) * Pow(s.sigma, 2)
  {
    SigmaGradZeroIff(cfg.nReg as real, s.sigma, SigmaMsq(cfg, s));
    QuotientZero(SigmaGrad(cfg, s), SigmaDenominator(cfg, s));
  }

  /** -n/sg + sg^-3 m vanishes iff m = n sg^2. */
  lemma SigmaGradZeroIff(n: real, sg: real, m: real)
    requires sg > 0.0
    ensures SigmaGradOf(n, sg, m) == 0.0 <==> m == n * Pow(sg, 2)
  {
    var p2, p3 := Pow(sg, 2), Pow(sg, 3);
    assert p3 == sg * p2;
    assert PowNeg(sg, 3) * p3 == 1.0;
    assert (-n / sg) * p3 == -n * p2;
    assert SigmaGradOf(n, sg, m) * p3 == -n * p2 + m;
  }

  /** The gradients are defined: the denominators a flagged slot divides by are non-zero. */
  ghost predicate GradDefined(cfg: LatentConfig, s: State)
  {
    && Inv(cfg, s)
    && (cfg.optMu ==> MuHess(cfg, s) != 0.0)
    && (cfg.optSigma ==> SigmaDenominator(cfg, s) != 0.0)
  }

  /**
   * `getGrad`: each slot is its gradient when the slot is flagged and exactly 0 otherwise.
   * gKappa and gVar are what the variant's grad_theta_kappa and the mixing variable's
   * grad_theta_var return in this state.
   */
  function Grad(cfg: LatentConfig, s: State, gKappa: real, gVar: real): (g: Vector)
    requires GradDefined(cfg, s)
    ensures |g| == NParas
    ensures forall k :: 0 <= k < NParas && !Flag(cfg, k) ==> g[k] == 0.0
    ensures cfg.optKappa ==> g[KappaSlot] == gKappa
    ensures cfg.optMu ==> g[MuSlot] == GradMu(cfg, s)
    ensures cfg.optSigma ==> g[SigmaSlot] == GradThetaSigma(cfg, s)
    ensures cfg.optVar ==> g[VarSlot] == gVar
  {
    [ if cfg.optKappa then gKappa else 0.0,
      if cfg.optMu then GradMu(cfg, s) else 0.0,
      if cfg.optSigma then GradThetaSigma(cfg, s) else 0.0,
      if cfg.optVar then gVar else 0.0 ]
  }

  /**
   * Freeze masking end to end: a step theta - c g with any g that is 0 on unflagged slots
   * (as getGrad's is), written back with setTheta, is what getTheta then reads, in every slot.
   */
  lemma {:induction false} StepThroughSetTheta(cfg: LatentConfig, s: State, g: Vector, c: real)
    requires Inv(cfg, s) && |g| == NParas
    requires forall k :: 0 <= k < NParas && !Flag(cfg, k) ==> g[k] == 0.0
    ensures var t := Sub(Theta(cfg, s), Scale(c, g));
      Theta(cfg, WithTheta(cfg, s, t)) == t
  {
    var t := Sub(Theta(cfg, s), Scale(c, g));
    var s' := WithTheta(cfg, s, t);
    forall k | 0 <= k < NParas
      ensures Theta(cfg, s')[k] == t[k]
    {
      if Flag(cfg, k) {
        if k == SigmaSlot {
          assert cfg.tr.log(cfg.tr.exp(t[k])) == t[k];
        }
      } else {
        assert g[k] == 0.0;
        assert t[k] == Theta(cfg, s)[k] - c * 0.0;
      }
    }
  }

  // ---------------------------------------------------------------------------
  // Sampling steps

  /** `setW`: the old W moves to prevW; nothing else changes. */
  function WithW(s: State, w: Vector): (s': State)
    ensures s'.W == w && s'.prevW == s.W
    ensures s' == s.(W := w, prevW := s.W)
  {
    s.(prevW := s.W, W := w)
  }

  /** The effect of `sample_cond_V` with the drawn vector v: the old V moves to prevV. */
  function WithV(s: State, v: Vector): (s': State)
    ensures s'.V == v && s'.prevV == s.V
    ensures s' == s.(V := v, prevV := s.V)
  {
    s.(prevV := s.V, V := v)
  }

  class Latent {
    const nReg: nat
    const optKappa: bool
    const optMu: bool
    const optSigma: bool
    const optVar: bool
    const usePrecond: bool
    const numerGrad: bool
    const h: Vector
    const A: Matrix
    const ope: Operators.Operator
    const tr: Transcendental

    var mu: real
    var sigma: real
    var W: Vector
    var prevW: Vector
    // The mixing variable's state (var.h is not part of this model).
    var V: Vector
    var prevV: Vector
    var thetaVar: real

    function Config(): LatentConfig
    {
      LatentConfig(nReg, optKappa, optMu, optSigma, optVar, h, ope.structure, tr)
    }

    function Snapshot(): State
      reads this, ope
    {
      State(ope.kappa, ope.K, ope.dK, ope.d2K, mu, sigma, W, prevW, V, prevV, thetaVar)
    }

    ghost predicate Valid()
      reads this, ope
    {
      ope.Valid() && Inv(Config(), Snapshot())
    }

    /**
     * The constructor: flags and initial mu, sigma as given, h all ones of length n_reg.
     * The variant supplies the operator; the mixing variable's initial V and theta_var are
     * given (var.h is not part of this model). Eigen leaves W and prevW uninitialised; here
     * they start at 0.
     */
    constructor (nReg: nat, A: Matrix, optMu: bool, optSigma: bool, optKappa: bool, optVar: bool,
                 usePrecond: bool, numerGrad: bool, mu0: real, sigma0: real,
                 v0: Vector, thetaVar0: real, ope: Operators.Operator, tr: Transcendental)
      requires ope.Valid() && ope.structure.n == nReg
      requires sigma0 > 0.0 && |v0| == nReg && Positive(v0)
      ensures Valid()
      ensures this.nReg == nReg && this.A == A && this.ope == ope && this.tr == tr
      ensures this.optMu == optMu && this.optSigma == optSigma
      ensures this.optKappa == optKappa && this.optVar == optVar
      ensures this.usePrecond == usePrecond && this.numerGrad == numerGrad
      ensures h == seq(nReg, i => 1.0)
      ensures mu == mu0 && sigma == sigma0 && V == v0 && prevV == v0 && thetaVar == thetaVar0
      ensures W == Zeros(nReg) && prevW == Zeros(nReg)
    {
      this.nReg := nReg;
      this.A := A;
      this.optMu, this.optSigma, this.optKappa, this.optVar := optMu, optSigma, optKappa, optVar;
      this.usePrecond, this.numerGrad := usePrecond, numerGrad;
      this.ope := ope;
      this.tr := tr;
      h := seq(nReg, i => 1.0);
      mu, sigma := mu0, sigma0;
      W, prevW := Zeros(nReg), Zeros(nReg);
      V, prevV := v0, v0;
      thetaVar := thetaVar0;
    }

    /** `setW`: prevW = W; W = w. */
    method SetW(w: Vector)
      requires Valid() && |w| == nReg
      modifies this
      ensures Valid()
      ensures Snapshot() == WithW(old(Snapshot()), w)
    {
      prevW := W;
      W := w;
    }

    /** `sample_cond_V` with the draw v of the mixing variable's conditional sampler. */
    method SampleCondV(v: Vector)
      requires Valid() && |v| == nReg && Positive(v)
      modifies this
      ensures Valid()
      ensures Snapshot() == WithV(old(Snapshot()), v)
    {
      prevV := V;
      V := v;
    }

    /** `setKappa`: passes kappa to the operator (the trace update is not modelled). */
    method SetKappa(kappa: real)
      requires Valid()
      modifies ope
      ensures Valid()
      ensures Snapshot() == old(Snapshot()).(kappa := kappa, K := Operators.GcK(ope.structure, kappa))
    {
      ope.SetKappa(kappa);
    }

    /** `setTheta`: writes the flagged slots only. */
    method SetTheta(theta: Vector)
      requires Valid() && |theta| == NParas
      modifies this, ope
      ensures Valid()
      ensures Snapshot() == WithTheta(Config(), old(Snapshot()), theta)
    {
      if optKappa { SetKappa(theta[KappaSlot]); }
      if optMu { mu := theta[MuSlot]; }
      if optSigma { sigma := Exp(tr, theta[SigmaSlot]); }
      if optVar { thetaVar := theta[VarSlot]; }
    }
  }
}
