/**
 * The operator of a latent process (operator.h): a parameter kappa and the matrices
 * K, dK = dK/dkappa and d2K derived from it. The base class leaves `update` to its
 * variants; the only variant in this file is GC, K = kappa * C + G.
 */
module Operators {
  import opened Algebra

  /** The fixed structural inputs of the GC variant: n x n matrices G and C. */
  datatype Structure = GC(G: Matrix, C: Matrix, n: nat)

  ghost predicate WellShaped(s: Structure)
  {
    IsMatrix(s.G, s.n, s.n) && IsMatrix(s.C, s.n, s.n)
  }

  /** K of the GC variant at parameter kappa. */
  function GcK(s: Structure, kappa: real): (K: Matrix)
    requires WellShaped(s)
    ensures IsMatrix(K, s.n, s.n)
  {
    Affine(kappa, s.C, s.G)
  }

  /**
   * dK = C is the derivative of K in kappa: the difference quotient of K is C for every
   * step, so also the forward difference with any eps that a numerical dK would use.
   */
  lemma GcDerivative(s: Structure, kappa: real, eps: real)
    requires WellShaped(s) && eps != 0.0
    ensures DiffQuotient(GcK(s, kappa + eps), GcK(s, kappa), eps) == s.C
  {
    AffineDifference(kappa, eps, s.C, s.G);
  }

  class Operator {
    var kappa: real
    var K: Matrix
    var dK: Matrix
    var d2K: Matrix
    const structure: Structure

    /** The matrices agree with kappa: K = kappa C + G, dK = C, d2K = 0 C. */
    ghost predicate Valid()
      reads this
    {
      && WellShaped(structure)
      && K == GcK(structure, kappa)
      && dK == structure.C
      && d2K == MatScale(0.0, structure.C)
    }

    /** `Operator()`: kappa = 1; the matrices are still empty, for the variant to fill. */
    constructor Default(structure: Structure)
      ensures kappa == 1.0 && K == [] && dK == [] && d2K == []
      ensures this.structure == structure
    {
      kappa := 1.0;
      K, dK, d2K := [], [], [];
      this.structure := structure;
    }

    /** `Operator(kappa)`. */
    constructor WithKappa(k: real, structure: Structure)
      ensures kappa == k && K == [] && dK == [] && d2K == []
      ensures this.structure == structure
    {
      kappa := k;
      K, dK, d2K := [], [], [];
      this.structure := structure;
    }

    /** The GC constructor: kappa = a_init, K = kappa C + G, dK = C, d2K = 0 C. */
    constructor GcInit(aInit: real, G: Matrix, C: Matrix, n: nat)
      requires WellShaped(GC(G, C, n))
      ensures Valid()
      ensures structure == GC(G, C, n) && kappa == aInit
      ensures K == Affine(aInit, C, G) && dK == C && d2K == MatScale(0.0, C)
    {
      kappa := aInit;
      structure := GC(G, C, n);
      K := Affine(aInit, C, G);
      dK := C;
      d2K := MatScale(0.0, C);
    }

    /** `GC::update`: recomputes K from the current kappa; dK and d2K are kept. */
    method Update()
      requires WellShaped(structure)
      modifies this
      ensures K == GcK(structure, kappa)
      ensures kappa == old(kappa) && dK == old(dK) && d2K == old(d2K)
    {
      K := Affine(kappa, structure.C, structure.G);
    }

    /** `setKappa`: stores kappa, then runs `update`. */
    method SetKappa(k: real)
      requires Valid()
      modifies this
      ensures Valid()
      ensures kappa == k && K == GcK(structure, k)
      ensures dK == old(dK) && d2K == old(d2K)
    {
      kappa := k;
      Update();
    }
  }
}
