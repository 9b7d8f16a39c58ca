/**
 * The block model (src/block.h, src/block.cpp): the latent processes side by side. Their
 * parameter blocks, means, variances and states are laid end to end in latent order, their
 * operators sit on the diagonal of the global K, dK and d2K, and their observation matrices
 * side by side in A. `grad` averages the stacked gradients over n_gibbs Gibbs sweeps.
 *
 * The value view: a sequence of LatentConfig and one of State, one per latent, with the
 * functions that say what each operation of the block computes on them. The class BlockModel
 * holds the latents and the global matrices, and its methods are proved against those functions.
 */
module Blocks {
  import opened Algebra
  import opened Latents

  /** `n_gibbs(20)`: the number of Gibbs sweeps `grad` averages over. */
  const NGibbs: nat := 20

  // ---------------------------------------------------------------------------
  // The value view of all latents

  ghost predicate AllInv(cfgs: seq<LatentConfig>, ss: seq<State>)
  {
    |cfgs| == |ss| && forall i :: 0 <= i < |ss| ==> Inv(cfgs[i], ss[i])
  }

  /** `getSize()` of every latent. */
  function Sizes(cfgs: seq<LatentConfig>): (s: seq<nat>)
    ensures |s| == |cfgs| && forall i :: 0 <= i < |cfgs| ==> s[i] == cfgs[i].nReg
  {
    seq(|cfgs|, i requires 0 <= i < |cfgs| => cfgs[i].nReg)
  }

  /** `getThetaSize()` of every latent: n_paras = 4 each. */
  function ThetaSizes(n: nat): (s: seq<nat>)
    ensures |s| == n && forall i :: 0 <= i < n ==> s[i] == NParas
    ensures Sum(s) == NParas * n
  {
    SumConstant(n, NParas);
    seq(n, i => NParas)
  }

  function Thetas(cfgs: seq<LatentConfig>, ss: seq<State>): (parts: seq<Vector>)
    requires |cfgs| == |ss|
    ensures |parts| == |ss| && forall i :: 0 <= i < |ss| ==> parts[i] == Theta(cfgs[i], ss[i])
    ensures Lengths(parts) == ThetaSizes(|ss|)
  {
    seq(|ss|, i requires 0 <= i < |ss| => Theta(cfgs[i], ss[i]))
  }

  /** `get_parameter`: every latent's getTheta, laid end to end in latent order. */
  function Parameters(cfgs: seq<LatentConfig>, ss: seq<State>): (theta: Vector)
    requires |cfgs| == |ss|
    ensures |theta| == Sum(ThetaSizes(|ss|)) == NParas * |ss|
  {
    FlattenLength(Thetas(cfgs, ss));
    Flatten(Thetas(cfgs, ss))
  }

  function Means(cfgs: seq<LatentConfig>, ss: seq<State>): (parts: seq<Vector>)
    requires AllInv(cfgs, ss)
    ensures |parts| == |ss| && forall i :: 0 <= i < |ss| ==> parts[i] == Mean(cfgs[i], ss[i])
    ensures Lengths(parts) == Sizes(cfgs)
  {
    seq(|ss|, i requires 0 <= i < |ss| => Mean(cfgs[i], ss[i]))
  }

  function SVs(cfgs: seq<LatentConfig>, ss: seq<State>): (parts: seq<Vector>)
    requires AllInv(cfgs, ss)
    ensures |parts| == |ss| && forall i :: 0 <= i < |ss| ==> parts[i] == SV(cfgs[i], ss[i])
    ensures Lengths(parts) == Sizes(cfgs)
  {
    seq(|ss|, i requires 0 <= i < |ss| => SV(cfgs[i], ss[i]))
  }

  function Ws(cfgs: seq<LatentConfig>, ss: seq<State>): (parts: seq<Vector>)
    requires AllInv(cfgs, ss)
    ensures |parts| == |ss| && forall i :: 0 <= i < |ss| ==> parts[i] == ss[i].W
    ensures Lengths(parts) == Sizes(cfgs)
  {
    seq(|ss|, i requires 0 <= i < |ss| => ss[i].W)
  }

  /** Every latent after `setW` with its own part. */
  function WithWs(ss: seq<State>, ws: seq<Vector>): (r: seq<State>)
    requires |ws| == |ss|
    ensures |r| == |ss| && forall i :: 0 <= i < |ss| ==> r[i] == WithW(ss[i], ws[i])
  {
    seq(|ss|, i requires 0 <= i < |ss| => WithW(ss[i], ws[i]))
  }

  /** Every latent after `sample_cond_V` with its own draw. */
  function WithVs(ss: seq<State>, vs: seq<Vector>): (r: seq<State>)
    requires |vs| == |ss|
    ensures |r| == |ss| && forall i :: 0 <= i < |ss| ==> r[i] == WithV(ss[i], vs[i])
  {
    seq(|ss|, i requires 0 <= i < |ss| => WithV(ss[i], vs[i]))
  }

  /** Every latent after `setTheta` with its own parameter block. */
  function WithThetas(cfgs: seq<LatentConfig>, ss: seq<State>, ts: seq<Vector>): (r: seq<State>)
    requires AllInv(cfgs, ss) && |ts| == |ss| && forall i :: 0 <= i < |ts| ==> |ts[i]| == NParas
    ensures AllInv(cfgs, r)
    ensures |r| == |ss| && forall i :: 0 <= i < |ss| ==> r[i] == WithTheta(cfgs[i], ss[i], ts[i])
  {
    seq(|ss|, i requires 0 <= i < |ss| => WithTheta(cfgs[i], ss[i], ts[i]))
  }

  ghost predicate AllGradDefined(cfgs: seq<LatentConfig>, ss: seq<State>)
  {
    |cfgs| == |ss| && forall i :: 0 <= i < |ss| ==> GradDefined(cfgs[i], ss[i])
  }

  /** Every latent's `getGrad`, with what its variant and its mixing variable return for slots 0 and 3. */
  function Grads(cfgs: seq<LatentConfig>, ss: seq<State>, gKappa: seq<real>, gVar: seq<real>): (parts: seq<Vector>)
    requires AllGradDefined(cfgs, ss) && |gKappa| == |ss| && |gVar| == |ss|
    ensures |parts| == |ss|
    ensures forall i :: 0 <= i < |ss| ==> parts[i] == Grad(cfgs[i], ss[i], gKappa[i], gVar[i])
    ensures Lengths(parts) == ThetaSizes(|ss|)
  {
    seq(|ss|, i requires 0 <= i < |ss| => Grad(cfgs[i], ss[i], gKappa[i], gVar[i]))
  }

  lemma WithWKeepsInv(cfg: LatentConfig, s: State, w: Vector)
    requires Inv(cfg, s) && |w| == cfg.nReg
    ensures Inv(cfg, WithW(s, w))
  {
  }

  /** `getW` after `setW(W)` returns W. */
  lemma GetWAfterSetW(cfgs: seq<LatentConfig>, ss: seq<State>, w: Vector)
    requires AllInv(cfgs, ss) && |w| == Sum(Sizes(cfgs))
    ensures AllInv(cfgs, WithWs(ss, Split(w, Sizes(cfgs))))
    ensures Flatten(Ws(cfgs, WithWs(ss, Split(w, Sizes(cfgs))))) == w
  {
    var parts := Split(w, Sizes(cfgs));
    var r := WithWs(ss, parts);
    forall i | 0 <= i < |ss|
      ensures Inv(cfgs[i], r[i])
    {
      WithWKeepsInv(cfgs[i], ss[i], parts[i]);
    }
    assert Ws(cfgs, r) == parts;
    FlattenSplit(w, Sizes(cfgs));
  }

  // ---------------------------------------------------------------------------
  // Gibbs sweeps

  /** One draw per latent for its mixing variable, of its size and positive. */
  ghost predicate DrawsFit(cfgs: seq<LatentConfig>, vs: seq<Vector>)
  {
    |vs| == |cfgs| && forall i :: 0 <= i < |vs| ==> |vs[i]| == cfgs[i].nReg && Positive(vs[i])
  }

  /** `sampleV_WY` with the draws vs, then `sampleW_VY` with the global draw w, cut at the latents' sizes. */
  function AfterSweep(cfgs: seq<LatentConfig>, ss: seq<State>, vs: seq<Vector>, w: Vector): (r: seq<State>)
    requires AllInv(cfgs, ss) && DrawsFit(cfgs, vs) && |w| == Sum(Sizes(cfgs))
    ensures AllInv(cfgs, r)
  {
    SplitLengths(w, Sizes(cfgs));
    WithWs(WithVs(ss, vs), Split(w, Sizes(cfgs)))
  }

  /** The draws of n sweeps: V draws per latent and one global W draw per sweep. */
  ghost predicate SweepDrawsFit(cfgs: seq<LatentConfig>, drawsV: seq<seq<Vector>>, drawsW: seq<Vector>, n: nat)
  {
    n <= |drawsV| && n <= |drawsW| &&
    forall k :: 0 <= k < n ==> DrawsFit(cfgs, drawsV[k]) && |drawsW[k]| == Sum(Sizes(cfgs))
  }

  /** The latents' states after k sweeps from ss. */
  function Sweeps(cfgs: seq<LatentConfig>, ss: seq<State>, drawsV: seq<seq<Vector>>, drawsW: seq<Vector>, k: nat): (r: seq<State>)
    requires AllInv(cfgs, ss) && SweepDrawsFit(cfgs, drawsV, drawsW, k)
    ensures AllInv(cfgs, r)
  {
    if k == 0 then ss
    else AfterSweep(cfgs, Sweeps(cfgs, ss, drawsV, drawsW, k - 1), drawsV[k - 1], drawsW[k - 1])
  }

  /** The gradients are defined in each of the first n sweeps. */
  ghost predicate SweepGradsDefined(cfgs: seq<LatentConfig>, ss: seq<State>, drawsV: seq<seq<Vector>>,
                                    drawsW: seq<Vector>, n: nat)
    requires AllInv(cfgs, ss) && SweepDrawsFit(cfgs, drawsV, drawsW, n)
  {
    forall k :: 0 <= k < n ==> AllGradDefined(cfgs, Sweeps(cfgs, ss, drawsV, drawsW, k))
  }

  /** What the variant and the mixing variable return as gradients, per sweep and latent. */
  ghost predicate GradInputsFit(gKappa: seq<seq<real>>, gVar: seq<seq<real>>, nLatent: nat, n: nat)
  {
    n <= |gKappa| && n <= |gVar| &&
    forall k :: 0 <= k < n ==> |gKappa[k]| == nLatent && |gVar[k]| == nLatent
  }

  /** The stacked gradient of sweep k, read before that sweep samples. */
  function SweepGrad(cfgs: seq<LatentConfig>, ss: seq<State>, drawsV: seq<seq<Vector>>, drawsW: seq<Vector>,
                     gKappa: seq<seq<real>>, gVar: seq<seq<real>>, k: nat): (g: Vector)
    requires AllInv(cfgs, ss) && SweepDrawsFit(cfgs, drawsV, drawsW, k + 1)
    requires SweepGradsDefined(cfgs, ss, drawsV, drawsW, k + 1)
    requires GradInputsFit(gKappa, gVar, |ss|, k + 1)
    ensures |g| == NParas * |ss|
  {
    var parts := Grads(cfgs, Sweeps(cfgs, ss, drawsV, drawsW, k), gKappa[k], gVar[k]);
    FlattenLength(parts);
    Flatten(parts)
  }

  /** The stacked gradients of the first n sweeps. */
  function SweepGrads(cfgs: seq<LatentConfig>, ss: seq<State>, drawsV: seq<seq<Vector>>, drawsW: seq<Vector>,
                      gKappa: seq<seq<real>>, gVar: seq<seq<real>>, n: nat): (gs: seq<Vector>)
    requires AllInv(cfgs, ss) && SweepDrawsFit(cfgs, drawsV, drawsW, n)
    requires SweepGradsDefined(cfgs, ss, drawsV, drawsW, n)
    requires GradInputsFit(gKappa, gVar, |ss|, n)
    ensures |gs| == n && forall k :: 0 <= k < n ==> |gs[k]| == NParas * |ss|
    ensures forall k :: 0 <= k < n ==> gs[k] == SweepGrad(cfgs, ss, drawsV, drawsW, gKappa, gVar, k)
  {
    seq(n, k requires 0 <= k < n => SweepGrad(cfgs, ss, drawsV, drawsW, gKappa, gVar, k))
  }

  /** Sum of n copies of c. */
  lemma {:induction false} SumConstant(n: nat, c: nat)
    ensures Sum(seq(n, i => c)) == n * c
  {
    if n > 0 {
      SumConstant(n - 1, c);
      assert seq(n, i => c)[..n - 1] == seq(n - 1, i => c);
    }
  }

  // ---------------------------------------------------------------------------
  // Block-diagonal and side-by-side placement

  ghost predicate SquareBlocks(blocks: seq<Matrix>, sizes: seq<nat>)
  {
    |blocks| == |sizes| && forall i :: 0 <= i < |sizes| ==> IsMatrix(blocks[i], sizes[i], sizes[i])
  }

  /** Entry (r, c) of the block-diagonal matrix: block b's entry when both fall in part b, else 0. */
  function DiagonalEntry(blocks: seq<Matrix>, sizes: seq<nat>, r: nat, c: nat): real
    requires SquareBlocks(blocks, sizes) && r < Sum(sizes) && c < Sum(sizes)
  {
    BlockIndexSpec(sizes, r);
    BlockIndexSpec(sizes, c);
    var b := BlockIndex(sizes, r);
    if b == BlockIndex(sizes, c) then blocks[b][r - Offset(sizes, b)][c - Offset(sizes, b)] else 0.0
  }

  /** The block-diagonal matrix of the blocks, laid out at the offsets of sizes. */
  function BlockDiagonal(blocks: seq<Matrix>, sizes: seq<nat>): (D: Matrix)
    requires SquareBlocks(blocks, sizes)
    ensures IsMatrix(D, Sum(sizes), Sum(sizes))
    ensures forall r, c :: 0 <= r < Sum(sizes) && 0 <= c < Sum(sizes) ==> D[r][c] == DiagonalEntry(blocks, sizes, r, c)
  {
    seq(Sum(sizes), r requires 0 <= r < Sum(sizes) =>
      seq(Sum(sizes), c requires 0 <= c < Sum(sizes) => DiagonalEntry(blocks, sizes, r, c)))
  }

  /** Block i sits at (Offset i, Offset i) of the block-diagonal matrix: rows and columns p, q of part i hold its entries. */
  lemma BlockDiagonalAt(blocks: seq<Matrix>, sizes: seq<nat>, i: nat, p: nat, q: nat)
    requires SquareBlocks(blocks, sizes) && i < |sizes|
    requires Offset(sizes, i) <= p < Offset(sizes, i) + sizes[i]
    requires Offset(sizes, i) <= q < Offset(sizes, i) + sizes[i]
    ensures p < Sum(sizes) && q < Sum(sizes)
    ensures BlockDiagonal(blocks, sizes)[p][q] == blocks[i][p - Offset(sizes, i)][q - Offset(sizes, i)]
  {
    DiagonalEntryAt(blocks, sizes, i, p, q);
  }

  /** Entry (p, q) with p and q in part i is block i's entry. */
  lemma DiagonalEntryAt(blocks: seq<Matrix>, sizes: seq<nat>, i: nat, p: nat, q: nat)
    requires SquareBlocks(blocks, sizes) && i < |sizes|
    requires Offset(sizes, i) <= p < Offset(sizes, i) + sizes[i]
    requires Offset(sizes, i) <= q < Offset(sizes, i) + sizes[i]
    ensures p < Sum(sizes) && q < Sum(sizes)
    ensures DiagonalEntry(blocks, sizes, p, q) == blocks[i][p - Offset(sizes, i)][q - Offset(sizes, i)]
  {
    BlockIndexUnique(sizes, p, i);
    BlockIndexUnique(sizes, q, i);
  }

  /** Entries whose row and column fall in different parts are 0. */
  ghost predicate OffBlockZero(M: Matrix, sizes: seq<nat>)
    requires IsMatrix(M, Sum(sizes), Sum(sizes))
  {
    forall r, c :: 0 <= r < Sum(sizes) && 0 <= c < Sum(sizes) && BlockIndex(sizes, r) != BlockIndex(sizes, c) ==>
      M[r][c] == 0.0
  }

  /** M after the first k blocks of an `assemble` loop starting from M0. */
  ghost predicate PlacedUpTo(M: Matrix, M0: Matrix, blocks: seq<Matrix>, sizes: seq<nat>, k: nat)
    requires SquareBlocks(blocks, sizes)
  {
    && IsMatrix(M, Sum(sizes), Sum(sizes))
    && IsMatrix(M0, Sum(sizes), Sum(sizes))
    && forall r, c :: 0 <= r < Sum(sizes) && 0 <= c < Sum(sizes) ==>
         M[r][c] == if BlockIndex(sizes, r) == BlockIndex(sizes, c) && BlockIndex(sizes, r) < k
                    then DiagonalEntry(blocks, sizes, r, c) else M0[r][c]
  }

  /** `setSparseBlock(&M, n, n, block k)` with n the offset of part k extends PlacedUpTo by one block. */
  lemma PlaceNext(M: Matrix, M0: Matrix, blocks: seq<Matrix>, sizes: seq<nat>, k: nat)
    requires SquareBlocks(blocks, sizes) && k < |sizes| && PlacedUpTo(M, M0, blocks, sizes, k)
    ensures Offset(sizes, k) + sizes[k] <= Sum(sizes)
    ensures PlacedUpTo(SetBlock(M, Offset(sizes, k), Offset(sizes, k), blocks[k], sizes[k], sizes[k]),
                       M0, blocks, sizes, k + 1)
  {
    OffsetBound(sizes, k);
    var o := Offset(sizes, k);
    var M' := SetBlock(M, o, o, blocks[k], sizes[k], sizes[k]);
    forall r, c | 0 <= r < Sum(sizes) && 0 <= c < Sum(sizes)
      ensures M'[r][c] == if BlockIndex(sizes, r) == BlockIndex(sizes, c) && BlockIndex(sizes, r) < k + 1
                          then DiagonalEntry(blocks, sizes, r, c) else M0[r][c]
    {
      SetBlockEntry(M, o, o, blocks[k], sizes[k], sizes[k], r, c);
      PlaceNextEntry(M, M0, blocks, sizes, k, r, c, M'[r][c]);
    }
  }

  /** PlaceNext at one entry (r, c), whose new value v is block k's entry inside block k's square and M's outside it. */
  lemma PlaceNextEntry(M: Matrix, M0: Matrix, blocks: seq<Matrix>, sizes: seq<nat>, k: nat, r: nat, c: nat, v: real)
    requires SquareBlocks(blocks, sizes) && k < |sizes| && PlacedUpTo(M, M0, blocks, sizes, k)
    requires Offset(sizes, k) + sizes[k] <= Sum(sizes) && r < Sum(sizes) && c < Sum(sizes)
    requires v == if Offset(sizes, k) <= r < Offset(sizes, k) + sizes[k] && Offset(sizes, k) <= c < Offset(sizes, k) + sizes[k]
                  then blocks[k][r - Offset(sizes, k)][c - Offset(sizes, k)] else M[r][c]
    ensures v == if BlockIndex(sizes, r) == BlockIndex(sizes, c) && BlockIndex(sizes, r) < k + 1
                 then DiagonalEntry(blocks, sizes, r, c) else M0[r][c]
  {
    var o := Offset(sizes, k);
    if o <= r < o + sizes[k] && o <= c < o + sizes[k] {
      BlockIndexUnique(sizes, r, k);
      BlockIndexUnique(sizes, c, k);
      DiagonalEntryAt(blocks, sizes, k, r, c);
    } else {
      OutsideBlock(sizes, k, r, c);
      assert M[r][c] == if BlockIndex(sizes, r) == BlockIndex(sizes, c) && BlockIndex(sizes, r) < k
                        then DiagonalEntry(blocks, sizes, r, c) else M0[r][c];
    }
  }

  /** An entry outside block k's square is not in row and column part k both. */
  lemma OutsideBlock(sizes: seq<nat>, k: nat, r: nat, c: nat)
    requires k < |sizes| && r < Sum(sizes) && c < Sum(sizes)
    requires !(Offset(sizes, k) <= r < Offset(sizes, k) + sizes[k] && Offset(sizes, k) <= c < Offset(sizes, k) + sizes[k])
    ensures !(BlockIndex(sizes, r) == k && BlockIndex(sizes, c) == k)
  {
    BlockIndexSpec(sizes, r);
    BlockIndexSpec(sizes, c);
  }

  /** Once every block is placed over a matrix that is 0 off the blocks, the result is the block-diagonal matrix. */
  lemma PlacedAll(M: Matrix, M0: Matrix, blocks: seq<Matrix>, sizes: seq<nat>)
    requires SquareBlocks(blocks, sizes) && PlacedUpTo(M, M0, blocks, sizes, |sizes|)
    requires OffBlockZero(M0, sizes)
    ensures M == BlockDiagonal(blocks, sizes)
  {
    var D := BlockDiagonal(blocks, sizes);
    forall r | 0 <= r < Sum(sizes)
      ensures M[r] == D[r]
    {
      forall c | 0 <= c < Sum(sizes)
        ensures M[r][c] == D[r][c]
      {
        BlockIndexSpec(sizes, r);
      }
    }
  }

  lemma BlockDiagonalOffBlockZero(blocks: seq<Matrix>, sizes: seq<nat>)
    requires SquareBlocks(blocks, sizes)
    ensures OffBlockZero(BlockDiagonal(blocks, sizes), sizes)
  {
  }

  lemma ZeroOffBlockZero(sizes: seq<nat>)
    ensures OffBlockZero(ZeroMatrix(Sum(sizes), Sum(sizes)), sizes)
  {
  }

  ghost predicate ColumnBlocks(blocks: seq<Matrix>, rows: nat, sizes: seq<nat>)
  {
    |blocks| == |sizes| && forall i :: 0 <= i < |sizes| ==> IsMatrix(blocks[i], rows, sizes[i])
  }

  /** Entry (r, c) of the blocks side by side: block b's entry for the part b that column c falls in. */
  function SideBySideEntry(blocks: seq<Matrix>, rows: nat, sizes: seq<nat>, r: nat, c: nat): real
    requires ColumnBlocks(blocks, rows, sizes) && r < rows && c < Sum(sizes)
  {
    BlockIndexSpec(sizes, c);
    var b := BlockIndex(sizes, c);
    blocks[b][r][c - Offset(sizes, b)]
  }

  /** A after the first k latents of the constructor's placement loop, from the zero matrix. */
  ghost predicate SideBySideUpTo(A: Matrix, blocks: seq<Matrix>, rows: nat, sizes: seq<nat>, k: nat)
    requires ColumnBlocks(blocks, rows, sizes)
  {
    && IsMatrix(A, rows, Sum(sizes))
    && forall r, c :: 0 <= r < rows && 0 <= c < Sum(sizes) ==>
         A[r][c] == if BlockIndex(sizes, c) < k then SideBySideEntry(blocks, rows, sizes, r, c) else 0.0
  }

  /** `setSparseBlock(&A, 0, n, A_k)` with n the offset of part k extends SideBySideUpTo by one block. */
  lemma PlaceColumnsNext(A: Matrix, blocks: seq<Matrix>, rows: nat, sizes: seq<nat>, k: nat)
    requires ColumnBlocks(blocks, rows, sizes) && k < |sizes| && SideBySideUpTo(A, blocks, rows, sizes, k)
    ensures Offset(sizes, k) + sizes[k] <= Sum(sizes)
    ensures SideBySideUpTo(SetBlock(A, 0, Offset(sizes, k), blocks[k], rows, sizes[k]), blocks, rows, sizes, k + 1)
  {
    OffsetBound(sizes, k);
    var o := Offset(sizes, k);
    var A' := SetBlock(A, 0, o, blocks[k], rows, sizes[k]);
    forall r, c | 0 <= r < rows && 0 <= c < Sum(sizes)
      ensures A'[r][c] == if BlockIndex(sizes, c) < k + 1 then SideBySideEntry(blocks, rows, sizes, r, c) else 0.0
    {
      BlockIndexSpec(sizes, c);
      if o <= c < o + sizes[k] {
        BlockIndexUnique(sizes, c, k);
      }
    }
  }

  /** Latent i's A sits at row 0, column Offset i: column q of part i holds its column q - Offset i. */
  lemma SideBySideAt(A: Matrix, blocks: seq<Matrix>, rows: nat, sizes: seq<nat>, i: nat, r: nat, q: nat)
    requires ColumnBlocks(blocks, rows, sizes) && SideBySideUpTo(A, blocks, rows, sizes, |sizes|)
    requires i < |sizes| && r < rows && Offset(sizes, i) <= q < Offset(sizes, i) + sizes[i]
    ensures q < Sum(sizes) && A[r][q] == blocks[i][r][q - Offset(sizes, i)]
  {
    BlockIndexUnique(sizes, q, i);
    assert SideBySideEntry(blocks, rows, sizes, r, q) == blocks[i][r][q - Offset(sizes, i)];
  }

  // ---------------------------------------------------------------------------
  // Parameter and gradient layout

  /** With blocks of NParas each, block i starts at NParas * i. */
  lemma ThetaOffset(n: nat, i: nat)
    requires i <= n
    ensures Offset(ThetaSizes(n), i) == NParas * i
  {
    assert ThetaSizes(n)[..i] == seq(i, j => NParas);
    SumConstant(i, NParas);
  }

  /** Slot k of block i of a vector stacked from blocks of NParas each is at NParas * i + k. */
  lemma StackedSlot(parts: seq<Vector>, i: nat, k: nat)
    requires (forall j :: 0 <= j < |parts| ==> |parts[j]| == NParas) && i < |parts| && k < NParas
    ensures NParas * i + k < |Flatten(parts)|
    ensures Flatten(parts)[NParas * i + k] == parts[i][k]
  {
    assert Lengths(parts) == ThetaSizes(|parts|);
    FlattenSegment(parts, i);
    ThetaOffset(|parts|, i);
    var o := NParas * i;
    assert Flatten(parts)[o..o + NParas][k] == parts[i][k];
  }

  /** `get_parameter`: slot k of latent i's getTheta sits at NParas * i + k. */
  lemma ParameterLayout(cfgs: seq<LatentConfig>, ss: seq<State>, i: nat, k: nat)
    requires |cfgs| == |ss| && i < |ss| && k < NParas
    ensures Parameters(cfgs, ss)[NParas * i + k] == Theta(cfgs[i], ss[i])[k]
  {
    StackedSlot(Thetas(cfgs, ss), i, k);
  }

  /** `set_parameter`: latent i receives the segment [NParas * i, NParas * i + NParas) of Theta. */
  lemma ParameterSegment(theta: Vector, n: nat, i: nat)
    requires |theta| == NParas * n && i < n
    ensures NParas * i + NParas <= |theta|
    ensures Split(theta, ThetaSizes(n))[i] == theta[NParas * i..NParas * i + NParas]
  {
    SplitAt(theta, ThetaSizes(n), i);
    ThetaOffset(n, i);
    ThetaOffset(n, i + 1);
  }

  /** `set_parameter(get_parameter())` gives every latent back its own block, and so changes nothing. */
  lemma SetParameterOfGetParameter(cfgs: seq<LatentConfig>, ss: seq<State>)
    requires AllInv(cfgs, ss)
    ensures WithThetas(cfgs, ss, Split(Parameters(cfgs, ss), ThetaSizes(|ss|))) == ss
  {
    var parts := Thetas(cfgs, ss);
    SplitFlatten(parts);
    var r := WithThetas(cfgs, ss, Split(Parameters(cfgs, ss), ThetaSizes(|ss|)));
    forall i | 0 <= i < |ss|
      ensures r[i] == ss[i]
    {
      WithThetaOfTheta(cfgs[i], ss[i]);
    }
  }

  /**
   * `get_parameter` after `set_parameter(Theta)`: every flagged slot reads back Theta's entry at
   * that position; every unflagged slot reads what get_parameter read before.
   */
  lemma GetParameterAfterSet(cfgs: seq<LatentConfig>, ss: seq<State>, theta: Vector, i: nat, k: nat)
    requires AllInv(cfgs, ss) && |theta| == NParas * |ss| && i < |ss| && k < NParas
    ensures Parameters(cfgs, WithThetas(cfgs, ss, Split(theta, ThetaSizes(|ss|))))[NParas * i + k]
         == if Flag(cfgs[i], k) then theta[NParas * i + k] else Parameters(cfgs, ss)[NParas * i + k]
  {
    var ts := Split(theta, ThetaSizes(|ss|));
    ParameterSegment(theta, |ss|, i);
    assert ts[i][k] == theta[NParas * i + k];
    SlotAfterSet(cfgs, ss, ts, i, k);
  }

  /** Slot k of latent i in the stacked parameters after every latent's setTheta with its block of ts. */
  lemma SlotAfterSet(cfgs: seq<LatentConfig>, ss: seq<State>, ts: seq<Vector>, i: nat, k: nat)
    requires AllInv(cfgs, ss) && |ts| == |ss| && (forall j :: 0 <= j < |ts| ==> |ts[j]| == NParas)
    requires i < |ss| && k < NParas
    ensures Parameters(cfgs, WithThetas(cfgs, ss, ts))[NParas * i + k]
         == if Flag(cfgs[i], k) then ts[i][k] else Parameters(cfgs, ss)[NParas * i + k]
  {
    ParameterLayout(cfgs, ss, i, k);
    ParameterLayout(cfgs, WithThetas(cfgs, ss, ts), i, k);
  }

  /** Sums of vectors that are all 0 at position p are 0 at p. */
  lemma {:induction false} SumVectorsZeroAt(vs: seq<Vector>, n: nat, p: nat)
    requires forall k :: 0 <= k < |vs| ==> |vs[k]| == n
    requires p < n && forall k :: 0 <= k < |vs| ==> vs[k][p] == 0.0
    ensures SumVectors(vs, n)[p] == 0.0
  {
    if vs != [] {
      SumVectorsZeroAt(vs[..|vs| - 1], n, p);
    }
  }

  /** The stacked gradient is exactly 0 in every slot whose latent does not optimise it. */
  lemma StackedGradMasked(cfgs: seq<LatentConfig>, ss: seq<State>, gKappa: seq<real>, gVar: seq<real>, i: nat, k: nat)
    requires AllGradDefined(cfgs, ss) && |gKappa| == |ss| && |gVar| == |ss|
    requires i < |ss| && k < NParas && !Flag(cfgs[i], k)
    ensures NParas * i + k < |Flatten(Grads(cfgs, ss, gKappa, gVar))|
    ensures Flatten(Grads(cfgs, ss, gKappa, gVar))[NParas * i + k] == 0.0
  {
    StackedSlot(Grads(cfgs, ss, gKappa, gVar), i, k);
  }

  /** `grad`: its average over NGibbs sweeps is exactly 0 in every slot whose latent does not optimise it. */
  lemma AverageGradMasked(cfgs: seq<LatentConfig>, ss: seq<State>, drawsV: seq<seq<Vector>>, drawsW: seq<Vector>,
                          gKappa: seq<seq<real>>, gVar: seq<seq<real>>, i: nat, k: nat)
    requires AllInv(cfgs, ss) && SweepDrawsFit(cfgs, drawsV, drawsW, NGibbs)
    requires SweepGradsDefined(cfgs, ss, drawsV, drawsW, NGibbs)
    requires GradInputsFit(gKappa, gVar, |ss|, NGibbs)
    requires i < |ss| && k < NParas && !Flag(cfgs[i], k)
    ensures NParas * i + k < NParas * |ss|
    ensures Scale(1.0 / (NGibbs as real),
                  SumVectors(SweepGrads(cfgs, ss, drawsV, drawsW, gKappa, gVar, NGibbs), NParas * |ss|))[NParas * i + k] == 0.0
  {
    SweepGradsMasked(cfgs, ss, drawsV, drawsW, gKappa, gVar, NGibbs, i, k);
    AverageZeroAt(SweepGrads(cfgs, ss, drawsV, drawsW, gKappa, gVar, NGibbs), NParas * |ss|, NParas * i + k);
  }

  /** Every sweep's stacked gradient of n sweeps is 0 in a slot its latent does not optimise. */
  lemma SweepGradsMasked(cfgs: seq<LatentConfig>, ss: seq<State>, drawsV: seq<seq<Vector>>, drawsW: seq<Vector>,
                         gKappa: seq<seq<real>>, gVar: seq<seq<real>>, n: nat, i: nat, k: nat)
    requires AllInv(cfgs, ss) && SweepDrawsFit(cfgs, drawsV, drawsW, n)
    requires SweepGradsDefined(cfgs, ss, drawsV, drawsW, n) && GradInputsFit(gKappa, gVar, |ss|, n)
    requires i < |ss| && k < NParas && !Flag(cfgs[i], k)
    ensures NParas * i + k < NParas * |ss|
    ensures var gs := SweepGrads(cfgs, ss, drawsV, drawsW, gKappa, gVar, n);
      forall t :: 0 <= t < n ==> gs[t][NParas * i + k] == 0.0
  {
    SlotBound(i, k, |ss|);
    var gs := SweepGrads(cfgs, ss, drawsV, drawsW, gKappa, gVar, n);
    forall t | 0 <= t < n
      ensures gs[t][NParas * i + k] == 0.0
    {
      SweepPrefix(cfgs, ss, drawsV, drawsW, gKappa, gVar, n, t);
      SweepGradMasked(cfgs, ss, drawsV, drawsW, gKappa, gVar, t, i, k);
    }
  }

  lemma SweepGradMasked(cfgs: seq<LatentConfig>, ss: seq<State>, drawsV: seq<seq<Vector>>, drawsW: seq<Vector>,
                        gKappa: seq<seq<real>>, gVar: seq<seq<real>>, t: nat, i: nat, k: nat)
    requires AllInv(cfgs, ss) && SweepDrawsFit(cfgs, drawsV, drawsW, t + 1)
    requires SweepGradsDefined(cfgs, ss, drawsV, drawsW, t + 1)
    requires GradInputsFit(gKappa, gVar, |ss|, t + 1)
    requires i < |ss| && k < NParas && !Flag(cfgs[i], k)
    ensures NParas * i + k < NParas * |ss|
    ensures SweepGrad(cfgs, ss, drawsV, drawsW, gKappa, gVar, t)[NParas * i + k] == 0.0
  {
    StackedGradMasked(cfgs, Sweeps(cfgs, ss, drawsV, drawsW, t), gKappa[t], gVar[t], i, k);
  }

  lemma SlotBound(i: nat, k: nat, n: nat)
    requires i < n && k < NParas
    ensures NParas * i + k < NParas * n
  {
  }

  lemma AverageZeroAt(gs: seq<Vector>, n: nat, p: nat)
    requires (forall t :: 0 <= t < |gs| ==> |gs[t]| == n) && p < n
    requires forall t :: 0 <= t < |gs| ==> gs[t][p] == 0.0
    ensures Scale(1.0 / (NGibbs as real), SumVectors(gs, n))[p] == 0.0
  {
    SumVectorsZeroAt(gs, n, p);
  }

  /** The first n + 1 sweeps' gradients are the first n and then sweep n's. */
  lemma SweepGradsNext(cfgs: seq<LatentConfig>, ss: seq<State>, drawsV: seq<seq<Vector>>, drawsW: seq<Vector>,
                       gKappa: seq<seq<real>>, gVar: seq<seq<real>>, n: nat)
    requires AllInv(cfgs, ss) && SweepDrawsFit(cfgs, drawsV, drawsW, n + 1)
    requires SweepGradsDefined(cfgs, ss, drawsV, drawsW, n + 1)
    requires GradInputsFit(gKappa, gVar, |ss|, n + 1)
    ensures SweepGrads(cfgs, ss, drawsV, drawsW, gKappa, gVar, n + 1)[..n]
         == SweepGrads(cfgs, ss, drawsV, drawsW, gKappa, gVar, n)
  {
  }

  /** Sweep i of n: its draws fit, and the states after it are AfterSweep of the states before it. */
  lemma SweepNext(cfgs: seq<LatentConfig>, ss: seq<State>, drawsV: seq<seq<Vector>>, drawsW: seq<Vector>, n: nat, i: nat)
    requires AllInv(cfgs, ss) && SweepDrawsFit(cfgs, drawsV, drawsW, n) && i < n
    ensures SweepDrawsFit(cfgs, drawsV, drawsW, i) && SweepDrawsFit(cfgs, drawsV, drawsW, i + 1)
    ensures DrawsFit(cfgs, drawsV[i]) && |drawsW[i]| == Sum(Sizes(cfgs))
    ensures Sweeps(cfgs, ss, drawsV, drawsW, i + 1)
         == AfterSweep(cfgs, Sweeps(cfgs, ss, drawsV, drawsW, i), drawsV[i], drawsW[i])
  {
  }

  /** Sweep i of n: the draws, gradients and inputs of the first i and i + 1 sweeps fit, and sweep i's gradient is the stack read before it samples. */
  lemma SweepPrefix(cfgs: seq<LatentConfig>, ss: seq<State>, drawsV: seq<seq<Vector>>, drawsW: seq<Vector>,
                    gKappa: seq<seq<real>>, gVar: seq<seq<real>>, n: nat, i: nat)
    requires AllInv(cfgs, ss) && SweepDrawsFit(cfgs, drawsV, drawsW, n)
    requires SweepGradsDefined(cfgs, ss, drawsV, drawsW, n) && GradInputsFit(gKappa, gVar, |ss|, n) && i < n
    ensures SweepDrawsFit(cfgs, drawsV, drawsW, i) && SweepDrawsFit(cfgs, drawsV, drawsW, i + 1)
    ensures SweepGradsDefined(cfgs, ss, drawsV, drawsW, i) && SweepGradsDefined(cfgs, ss, drawsV, drawsW, i + 1)
    ensures GradInputsFit(gKappa, gVar, |ss|, i) && GradInputsFit(gKappa, gVar, |ss|, i + 1)
    ensures AllGradDefined(cfgs, Sweeps(cfgs, ss, drawsV, drawsW, i)) && |gKappa[i]| == |ss| && |gVar[i]| == |ss|
    ensures SweepGrad(cfgs, ss, drawsV, drawsW, gKappa, gVar, i)
         == Flatten(Grads(cfgs, Sweeps(cfgs, ss, drawsV, drawsW, i), gKappa[i], gVar[i]))
  {
  }

  /** Sweep i of n: the sum of the first i sweeps' gradients and sweep i's gives the sum of the first i + 1. */
  lemma SumSweepGradsNext(cfgs: seq<LatentConfig>, ss: seq<State>, drawsV: seq<seq<Vector>>, drawsW: seq<Vector>,
                          gKappa: seq<seq<real>>, gVar: seq<seq<real>>, n: nat, i: nat)
    requires AllInv(cfgs, ss) && SweepDrawsFit(cfgs, drawsV, drawsW, n)
    requires SweepGradsDefined(cfgs, ss, drawsV, drawsW, n) && GradInputsFit(gKappa, gVar, |ss|, n) && i < n
    ensures SweepDrawsFit(cfgs, drawsV, drawsW, i) && SweepDrawsFit(cfgs, drawsV, drawsW, i + 1)
    ensures SweepGradsDefined(cfgs, ss, drawsV, drawsW, i) && SweepGradsDefined(cfgs, ss, drawsV, drawsW, i + 1)
    ensures GradInputsFit(gKappa, gVar, |ss|, i) && GradInputsFit(gKappa, gVar, |ss|, i + 1)
    ensures Add(SumVectors(SweepGrads(cfgs, ss, drawsV, drawsW, gKappa, gVar, i), NParas * |ss|),
                SweepGrad(cfgs, ss, drawsV, drawsW, gKappa, gVar, i))
         == SumVectors(SweepGrads(cfgs, ss, drawsV, drawsW, gKappa, gVar, i + 1), NParas * |ss|)
  {
    SweepPrefix(cfgs, ss, drawsV, drawsW, gKappa, gVar, n, i);
    SweepGradSum(cfgs, ss, drawsV, drawsW, gKappa, gVar, i);
  }

  /** Adding sweep i's stacked gradient to the sum of the first i gives the sum of the first i + 1. */
  lemma SweepGradSum(cfgs: seq<LatentConfig>, ss: seq<State>, drawsV: seq<seq<Vector>>, drawsW: seq<Vector>,
                     gKappa: seq<seq<real>>, gVar: seq<seq<real>>, i: nat)
    requires AllInv(cfgs, ss) && SweepDrawsFit(cfgs, drawsV, drawsW, i) && SweepDrawsFit(cfgs, drawsV, drawsW, i + 1)
    requires SweepGradsDefined(cfgs, ss, drawsV, drawsW, i) && SweepGradsDefined(cfgs, ss, drawsV, drawsW, i + 1)
    requires GradInputsFit(gKappa, gVar, |ss|, i) && GradInputsFit(gKappa, gVar, |ss|, i + 1)
    ensures Add(SumVectors(SweepGrads(cfgs, ss, drawsV, drawsW, gKappa, gVar, i), NParas * |ss|),
                SweepGrad(cfgs, ss, drawsV, drawsW, gKappa, gVar, i))
         == SumVectors(SweepGrads(cfgs, ss, drawsV, drawsW, gKappa, gVar, i + 1), NParas * |ss|)
  {
    SweepGradsNext(cfgs, ss, drawsV, drawsW, gKappa, gVar, i);
    var gs := SweepGrads(cfgs, ss, drawsV, drawsW, gKappa, gVar, i + 1);
    assert gs[i] == SweepGrad(cfgs, ss, drawsV, drawsW, gKappa, gVar, i);
  }

  /** The latents' operator matrices, square blocks of their sizes. */
  function Ks(cfgs: seq<LatentConfig>, ss: seq<State>): (blocks: seq<Matrix>)
    requires AllInv(cfgs, ss)
    ensures SquareBlocks(blocks, Sizes(cfgs)) && forall i :: 0 <= i < |ss| ==> blocks[i] == ss[i].K
  {
    seq(|ss|, i requires 0 <= i < |ss| => ss[i].K)
  }

  function DKs(cfgs: seq<LatentConfig>, ss: seq<State>): (blocks: seq<Matrix>)
    requires AllInv(cfgs, ss)
    ensures SquareBlocks(blocks, Sizes(cfgs)) && forall i :: 0 <= i < |ss| ==> blocks[i] == ss[i].dK
  {
    seq(|ss|, i requires 0 <= i < |ss| => ss[i].dK)
  }

  function D2Ks(cfgs: seq<LatentConfig>, ss: seq<State>): (blocks: seq<Matrix>)
    requires AllInv(cfgs, ss)
    ensures SquareBlocks(blocks, Sizes(cfgs)) && forall i :: 0 <= i < |ss| ==> blocks[i] == ss[i].d2K
  {
    seq(|ss|, i requires 0 <= i < |ss| => ss[i].d2K)
  }

  // ---------------------------------------------------------------------------
  // The latent objects

  /** Every latent's fixed configuration. */
  function ConfigsOf(ls: seq<Latent>): (cfgs: seq<LatentConfig>)
    ensures |cfgs| == |ls| && forall i :: 0 <= i < |ls| ==> cfgs[i] == ls[i].Config()
  {
    seq(|ls|, i requires 0 <= i < |ls| => ls[i].Config())
  }

  /** Every latent's observation matrix A. */
  function AsOf(ls: seq<Latent>): (blocks: seq<Matrix>)
    ensures |blocks| == |ls| && forall i :: 0 <= i < |ls| ==> blocks[i] == ls[i].A
  {
    seq(|ls|, i requires 0 <= i < |ls| => ls[i].A)
  }

  ghost function LatentSet(ls: seq<Latent>): set<object>
  {
    set i | 0 <= i < |ls| :: ls[i] as object
  }

  ghost function OperatorSet(ls: seq<Latent>): set<object>
  {
    set i | 0 <= i < |ls| :: ls[i].ope as object
  }

  /** Every latent's current state. */
  function StatesOf(ls: seq<Latent>): (ss: seq<State>)
    reads LatentSet(ls), OperatorSet(ls)
    ensures |ss| == |ls| && forall i :: 0 <= i < |ls| ==> ss[i] == ls[i].Snapshot()
  {
    seq(|ls|, i requires 0 <= i < |ls| reads LatentSet(ls), OperatorSet(ls) => ls[i].Snapshot())
  }

  /** No latent and no operator occurs twice. */
  ghost predicate Distinct(ls: seq<Latent>)
  {
    forall i, j :: 0 <= i < |ls| && 0 <= j < |ls| && i != j ==> ls[i] != ls[j] && ls[i].ope != ls[j].ope
  }

  /** Distinct latents with distinct operators, each valid. */
  ghost predicate LatentsReady(ls: seq<Latent>)
    reads LatentSet(ls), OperatorSet(ls)
  {
    && Distinct(ls)
    && (forall i :: 0 <= i < |ls| ==> ls[i].ope.Valid())
    && AllInv(ConfigsOf(ls), StatesOf(ls))
  }

  /** The loop of `setW`: latent i receives part i, in latent order. */
  method SetWs(ls: seq<Latent>, parts: seq<Vector>)
    requires LatentsReady(ls) && |parts| == |ls| && forall j :: 0 <= j < |ls| ==> |parts[j]| == ls[j].nReg
    modifies LatentSet(ls)
    ensures LatentsReady(ls)
    ensures StatesOf(ls) == WithWs(old(StatesOf(ls)), parts)
  {
    ghost var ss0 := StatesOf(ls);
    ghost var target := WithWs(ss0, parts);
    var i := 0;
    while i < |ls|
      invariant 0 <= i <= |ls|
      invariant forall j :: 0 <= j < |ls| ==> ls[j].Valid()
      invariant forall j :: 0 <= j < i ==> ls[j].Snapshot() == target[j]
      invariant forall j :: i <= j < |ls| ==> ls[j].Snapshot() == ss0[j]
    {
      ls[i].SetW(parts[i]);
      i := i + 1;
    }
    SnapshotsAre(ls, target);
  }

  /** `sampleV_WY`: latent i runs `sample_cond_V` with draw i, in latent order. */
  method SampleVs(ls: seq<Latent>, vs: seq<Vector>)
    requires LatentsReady(ls) && DrawsFit(ConfigsOf(ls), vs)
    modifies LatentSet(ls)
    ensures LatentsReady(ls)
    ensures StatesOf(ls) == WithVs(old(StatesOf(ls)), vs)
  {
    ghost var ss0 := StatesOf(ls);
    ghost var target := WithVs(ss0, vs);
    var i := 0;
    while i < |ls|
      invariant 0 <= i <= |ls|
      invariant forall j :: 0 <= j < |ls| ==> ls[j].Valid()
      invariant forall j :: 0 <= j < i ==> ls[j].Snapshot() == target[j]
      invariant forall j :: i <= j < |ls| ==> ls[j].Snapshot() == ss0[j]
    {
      ls[i].SampleCondV(vs[i]);
      i := i + 1;
    }
    SnapshotsAre(ls, target);
  }

  /** The loop of `set_parameter`: latent i receives parameter block i, in latent order. */
  method SetThetas(ls: seq<Latent>, ts: seq<Vector>)
    requires LatentsReady(ls) && |ts| == |ls| && forall j :: 0 <= j < |ls| ==> |ts[j]| == NParas
    modifies LatentSet(ls), OperatorSet(ls)
    ensures LatentsReady(ls)
    ensures StatesOf(ls) == WithThetas(ConfigsOf(ls), old(StatesOf(ls)), ts)
  {
    ghost var ss0 := StatesOf(ls);
    ghost var target := WithThetas(ConfigsOf(ls), ss0, ts);
    var i := 0;
    while i < |ls|
      invariant 0 <= i <= |ls|
      invariant forall j :: 0 <= j < |ls| ==> ls[j].Valid()
      invariant forall j :: 0 <= j < i ==> ls[j].Snapshot() == target[j]
      invariant forall j :: i <= j < |ls| ==> ls[j].Snapshot() == ss0[j]
    {
      ls[i].SetTheta(ts[i]);
      i := i + 1;
    }
    SnapshotsAre(ls, target);
  }

  lemma SnapshotsAre(ls: seq<Latent>, ss: seq<State>)
    requires |ss| == |ls| && forall j :: 0 <= j < |ls| ==> ls[j].Snapshot() == ss[j]
    ensures StatesOf(ls) == ss
  {
  }

  /**
   * The loop of `assemble`: block k of each of K, dK and d2K goes to (n, n), n the offset of
   * part k, over matrices that are 0 off the blocks; the result is block-diagonal.
   */
  method PlaceDiagonal(K0: Matrix, dK0: Matrix, d2K0: Matrix, ks: seq<Matrix>, dks: seq<Matrix>, d2ks: seq<Matrix>,
                       sizes: seq<nat>) returns (K: Matrix, dK: Matrix, d2K: Matrix)
    requires SquareBlocks(ks, sizes) && SquareBlocks(dks, sizes) && SquareBlocks(d2ks, sizes)
    requires IsMatrix(K0, Sum(sizes), Sum(sizes)) && OffBlockZero(K0, sizes)
    requires IsMatrix(dK0, Sum(sizes), Sum(sizes)) && OffBlockZero(dK0, sizes)
    requires IsMatrix(d2K0, Sum(sizes), Sum(sizes)) && OffBlockZero(d2K0, sizes)
    ensures K == BlockDiagonal(ks, sizes) && dK == BlockDiagonal(dks, sizes) && d2K == BlockDiagonal(d2ks, sizes)
  {
    K, dK, d2K := K0, dK0, d2K0;
    var n := 0;
    var k := 0;
    while k < |sizes|
      invariant 0 <= k <= |sizes| && n == Offset(sizes, k)
      invariant PlacedUpTo(K, K0, ks, sizes, k)
      invariant PlacedUpTo(dK, dK0, dks, sizes, k)
      invariant PlacedUpTo(d2K, d2K0, d2ks, sizes, k)
    {
      PlaceNext(K, K0, ks, sizes, k);
      PlaceNext(dK, dK0, dks, sizes, k);
      PlaceNext(d2K, d2K0, d2ks, sizes, k);
      OffsetStep(sizes, k);
      K := SetBlock(K, n, n, ks[k], sizes[k], sizes[k]);
      dK := SetBlock(dK, n, n, dks[k], sizes[k], sizes[k]);
      d2K := SetBlock(d2K, n, n, d2ks[k], sizes[k], sizes[k]);
      n := n + sizes[k];
      k := k + 1;
    }
    PlacedAll(K, K0, ks, sizes);
    PlacedAll(dK, dK0, dks, sizes);
    PlacedAll(d2K, d2K0, d2ks, sizes);
  }

  /** The constructor's loop over A: latent k's A goes to row 0, column n, n the offset of part k. */
  method PlaceColumns(blocks: seq<Matrix>, rows: nat, sizes: seq<nat>) returns (A: Matrix)
    requires ColumnBlocks(blocks, rows, sizes)
    ensures SideBySideUpTo(A, blocks, rows, sizes, |sizes|)
  {
    A := ZeroMatrix(rows, Sum(sizes));
    var n := 0;
    var k := 0;
    while k < |sizes|
      invariant 0 <= k <= |sizes| && n == Offset(sizes, k)
      invariant SideBySideUpTo(A, blocks, rows, sizes, k)
    {
      PlaceColumnsNext(A, blocks, rows, sizes, k);
      OffsetStep(sizes, k);
      A := SetBlock(A, 0, n, blocks[k], rows, sizes[k]);
      n := n + sizes[k];
      k := k + 1;
    }
  }

  /**
   * The `segment(pos, size) = part; pos += size` loop that get_parameter, getMean, getSV,
   * getW and grad's stacking run over the latents, on a vector of the final length.
   */
  method Stack(parts: seq<Vector>, total: nat) returns (v: Vector)
    requires Sum(Lengths(parts)) == total
    ensures |v| == total && v == Flatten(parts)
  {
    v := Zeros(total);
    var pos := 0;
    var k := 0;
    assert Flatten(parts[..0]) == [];
    while k < |parts|
      invariant 0 <= k <= |parts| && pos == Offset(Lengths(parts), k) && pos <= total && |v| == total
      invariant v == Flatten(parts[..k]) + Zeros(total - pos)
    {
      WriteNext(parts, k, total);
      v := WriteSegment(v, pos, parts[k]);
      pos := pos + |parts[k]|;
      k := k + 1;
    }
    WriteDone(parts, total);
    FlattenLength(parts);
  }

  /**
   * `rnorm_vec(n, mu, sigma)`: n calls of R::rnorm(mu, sigma), which R computes as
   * mu + sigma * z from a standard normal z; z holds those standard draws in call order.
   */
  method RnormVec(n: nat, mu: real, sigma: real, z: seq<real>) returns (out: Vector)
    requires n <= |z|
    ensures |out| == n && forall i :: 0 <= i < n ==> out[i] == mu + sigma * z[i]
  {
    out := Zeros(n);
    var i := 0;
    while i < n
      invariant 0 <= i <= n && |out| == n
      invariant forall j :: 0 <= j < i ==> out[j] == mu + sigma * z[j]
    {
      out := out[i := mu + sigma * z[i]];
      i := i + 1;
    }
  }

  /** A holds the blocks side by side over rows rows, and K, dK, d2K are square and 0 off the blocks. */
  ghost predicate Laid(blocks: seq<Matrix>, sizes: seq<nat>, rows: nat, A: Matrix, K: Matrix, dK: Matrix, d2K: Matrix)
  {
    && ColumnBlocks(blocks, rows, sizes)
    && SideBySideUpTo(A, blocks, rows, sizes, |sizes|)
    && IsMatrix(K, Sum(sizes), Sum(sizes)) && OffBlockZero(K, sizes)
    && IsMatrix(dK, Sum(sizes), Sum(sizes)) && OffBlockZero(dK, sizes)
    && IsMatrix(d2K, Sum(sizes), Sum(sizes)) && OffBlockZero(d2K, sizes)
  }

  /** The constructor's A with K, dK and d2K still zero. */
  lemma LaidFromZero(blocks: seq<Matrix>, sizes: seq<nat>, rows: nat, A: Matrix)
    requires ColumnBlocks(blocks, rows, sizes) && SideBySideUpTo(A, blocks, rows, sizes, |sizes|)
    ensures Laid(blocks, sizes, rows, A, ZeroMatrix(Sum(sizes), Sum(sizes)), ZeroMatrix(Sum(sizes), Sum(sizes)),
                 ZeroMatrix(Sum(sizes), Sum(sizes)))
  {
    ZeroOffBlockZero(sizes);
  }

  // ---------------------------------------------------------------------------
  // The block model

  class BlockModel {
    const nGibbs: nat
    const nObs: nat
    const nLatent: nat
    const nRegs: nat
    const nParas: nat
    const latents: seq<Latent>
    const sigmaEps: real
    const Y: Vector

    var A: Matrix
    var K: Matrix
    var dK: Matrix
    var d2K: Matrix

    /**
     * The main constructor, over latents already built from their configurations: n_gibbs = 20,
     * sigma_eps = 1, A built from the latents' A's side by side, K, dK, d2K from zero by
     * `assemble`, then `sampleW_VY` with its rMVN draw w0.
     */
    constructor (Y: Vector, nParas: nat, nRegs: nat, latents: seq<Latent>, w0: Vector)
      requires LatentsReady(latents)
      requires nRegs == Sum(Sizes(ConfigsOf(latents))) && nParas == NParas * |latents|
      requires ColumnBlocks(AsOf(latents), |Y|, Sizes(ConfigsOf(latents)))
      requires |w0| == nRegs
      modifies LatentSet(latents)
      ensures Valid()
      ensures this.latents == latents && this.Y == Y && this.nRegs == nRegs && this.nParas == nParas
      ensures nGibbs == NGibbs && nObs == |Y| && nLatent == |latents| && sigmaEps == 1.0
      ensures States() == WithWs(old(StatesOf(latents)), Split(w0, Sizes(ConfigsOf(latents))))
    {
      nGibbs := NGibbs;
      nObs := |Y|;
      nLatent := |latents|;
      this.nRegs := nRegs;
      this.nParas := nParas;
      this.latents := latents;
      sigmaEps := 1.0;
      this.Y := Y;
      K := ZeroMatrix(nRegs, nRegs);
      dK := ZeroMatrix(nRegs, nRegs);
      d2K := ZeroMatrix(nRegs, nRegs);
      ghost var ss0 := StatesOf(latents);
      var a := PlaceColumns(AsOf(latents), |Y|, Sizes(ConfigsOf(latents)));
      A := a;
      LaidFromZero(AsOf(latents), Sizes(ConfigsOf(latents)), |Y|, a);
      new;
      assert StatesOf(latents) == ss0 && LatentsReady(latents);
      assert Laid(AsOf(latents), Sizes(Configs()), nObs, A, K, dK, d2K);
      Assemble();
      SetW(w0);
    }

    function Configs(): seq<LatentConfig>
    {
      ConfigsOf(latents)
    }

    function States(): seq<State>
      reads LatentSet(latents), OperatorSet(latents)
    {
      StatesOf(latents)
    }

    /** The counts agree with the latents, A holds their A's side by side, and K, dK, d2K are 0 off their blocks. */
    ghost predicate Shaped()
      reads this, LatentSet(latents), OperatorSet(latents)
    {
      && LatentsReady(latents)
      && nGibbs == NGibbs && nLatent == |latents| && nObs == |Y|
      && nRegs == Sum(Sizes(Configs())) && nParas == Sum(ThetaSizes(nLatent))
      && Laid(AsOf(latents), Sizes(Configs()), nObs, A, K, dK, d2K)
    }

    /** Shaped, and K, dK and d2K hold the latents' current operator matrices on the block diagonal. */
    ghost predicate Valid()
      reads this, LatentSet(latents), OperatorSet(latents)
    {
      && Shaped()
      && K == BlockDiagonal(Ks(Configs(), States()), Sizes(Configs()))
      && dK == BlockDiagonal(DKs(Configs(), States()), Sizes(Configs()))
      && d2K == BlockDiagonal(D2Ks(Configs(), States()), Sizes(Configs()))
    }

    /** `get_parameter`: every latent's getTheta, in latent order. */
    method GetParameter() returns (thetas: Vector)
      requires Valid()
      ensures Valid()
      ensures |thetas| == nParas && thetas == Parameters(Configs(), States())
    {
      FlattenLength(Thetas(Configs(), States()));
      ghost var ss := States();
      thetas := Stack(Thetas(Configs(), States()), nParas);
      assert States() == ss;
    }

    /** `getMean`: every latent's getMean, in latent order. */
    method GetMean() returns (mean: Vector)
      requires Valid()
      ensures Valid()
      ensures |mean| == nRegs && mean == Flatten(Means(Configs(), States()))
    {
      var parts := Means(Configs(), States());
      ghost var ss := States();
      mean := Stack(parts, nRegs);
      assert States() == ss;
    }

    /** `getSV`: every latent's getSV, in latent order. */
    method GetSV() returns (sv: Vector)
      requires Valid()
      ensures Valid()
      ensures |sv| == nRegs && sv == Flatten(SVs(Configs(), States()))
    {
      ghost var ss := States();
      sv := Stack(SVs(Configs(), States()), nRegs);
      assert States() == ss;
    }

    /** `getW`: every latent's W, in latent order. */
    method GetW() returns (w: Vector)
      requires Valid()
      ensures Valid()
      ensures |w| == nRegs && w == Flatten(Ws(Configs(), States()))
    {
      ghost var ss := States();
      w := Stack(Ws(Configs(), States()), nRegs);
      assert States() == ss;
    }

    /** The stacking loop of `grad`: every latent's getGrad, in latent order. */
    method StackGrad(gKappa: seq<real>, gVar: seq<real>) returns (g: Vector)
      requires Valid() && AllGradDefined(Configs(), States())
      requires |gKappa| == nLatent && |gVar| == nLatent
      ensures Valid()
      ensures |g| == nParas && g == Flatten(Grads(Configs(), States(), gKappa, gVar))
    {
      ghost var ss := States();
      g := Stack(Grads(Configs(), States(), gKappa, gVar), nParas);
      assert States() == ss;
    }

    /** `setW`: latent i receives W's segment at its offset, in latent order; K, dK, d2K stay assembled. */
    method SetW(w: Vector)
      requires Valid() && |w| == nRegs
      modifies LatentSet(latents)
      ensures Valid()
      ensures States() == WithWs(old(States()), Split(w, Sizes(Configs())))
    {
      ghost var ss0 := States();
      var parts := Split(w, Sizes(Configs()));
      SetWs(latents, parts);
      assert Ks(Configs(), States()) == Ks(Configs(), ss0);
      assert DKs(Configs(), States()) == DKs(Configs(), ss0);
      assert D2Ks(Configs(), States()) == D2Ks(Configs(), ss0);
    }

    /** `sampleV_WY` (and `sampleV`): latent i runs `sample_cond_V` with draw i; K, dK, d2K stay assembled. */
    method SampleVWY(vs: seq<Vector>)
      requires Valid() && DrawsFit(Configs(), vs)
      modifies LatentSet(latents)
      ensures Valid()
      ensures States() == WithVs(old(States()), vs)
    {
      ghost var ss0 := States();
      SampleVs(latents, vs);
      assert Ks(Configs(), States()) == Ks(Configs(), ss0);
      assert DKs(Configs(), States()) == DKs(Configs(), ss0);
      assert D2Ks(Configs(), States()) == D2Ks(Configs(), ss0);
    }

    /** `assemble`: K, dK and d2K get every latent's blocks on their diagonal; A is untouched. */
    method Assemble()
      requires Shaped()
      modifies this
      ensures Valid() && A == old(A) && States() == old(States())
    {
      ghost var ss := States();
      K, dK, d2K := PlaceDiagonal(K, dK, d2K, Ks(Configs(), States()), DKs(Configs(), States()),
                                  D2Ks(Configs(), States()), Sizes(Configs()));
      assert States() == ss;
      BlockDiagonalOffBlockZero(Ks(Configs(), ss), Sizes(Configs()));
      BlockDiagonalOffBlockZero(DKs(Configs(), ss), Sizes(Configs()));
      BlockDiagonalOffBlockZero(D2Ks(Configs(), ss), Sizes(Configs()));
    }

    /** `set_parameter`: latent i receives Theta's block i, then `assemble` rebuilds K, dK, d2K. */
    method SetParameter(theta: Vector)
      requires Valid() && |theta| == nParas
      modifies this, LatentSet(latents), OperatorSet(latents)
      ensures Valid() && A == old(A)
      ensures States() == WithThetas(Configs(), old(States()), Split(theta, ThetaSizes(nLatent)))
    {
      var parts := Split(theta, ThetaSizes(nLatent));
      SetThetas(latents, parts);
      Assemble();
    }

    /**
     * Pass i of `grad`'s loop: sweep i's stacked gradient is added to the running sum, then
     * `sampleV_WY` and `sampleW_VY` run with sweep i's draws.
     */
    method GibbsSweep(ghost ss0: seq<State>, sum: Vector, drawsV: seq<seq<Vector>>, drawsW: seq<Vector>,
                      gKappa: seq<seq<real>>, gVar: seq<seq<real>>, i: nat) returns (sum': Vector)
      requires AllInv(Configs(), ss0) && SweepDrawsFit(Configs(), drawsV, drawsW, NGibbs)
      requires SweepGradsDefined(Configs(), ss0, drawsV, drawsW, NGibbs)
      requires GradInputsFit(gKappa, gVar, nLatent, NGibbs) && i < NGibbs
      requires Valid() && States() == Sweeps(Configs(), ss0, drawsV, drawsW, i)
      requires sum == SumVectors(SweepGrads(Configs(), ss0, drawsV, drawsW, gKappa, gVar, i), nParas)
      modifies LatentSet(latents)
      ensures Valid() && States() == Sweeps(Configs(), ss0, drawsV, drawsW, i + 1)
      ensures sum' == Add(sum, SweepGrad(Configs(), ss0, drawsV, drawsW, gKappa, gVar, i))
      ensures sum' == SumVectors(SweepGrads(Configs(), ss0, drawsV, drawsW, gKappa, gVar, i + 1), nParas)
    {
      SweepNext(Configs(), ss0, drawsV, drawsW, NGibbs, i);
      SumSweepGradsNext(Configs(), ss0, drawsV, drawsW, gKappa, gVar, NGibbs, i);
      SweepPrefix(Configs(), ss0, drawsV, drawsW, gKappa, gVar, NGibbs, i);
      ghost var ss := States();
      var g := StackGrad(gKappa[i], gVar[i]);
      assert States() == ss;
      sum' := Add(sum, g);
      SampleVWY(drawsV[i]);
      SetW(drawsW[i]);
    }

    /**
     * `grad`: n_gibbs times, stack the latents' gradients into the running sum, then run
     * `sampleV_WY` with the sweep's V draws and `sampleW_VY`, whose rMVN draw is given; the sum
     * is then scaled by 1 / n_gibbs.
     */
    method Grad(drawsV: seq<seq<Vector>>, drawsW: seq<Vector>, gKappa: seq<seq<real>>, gVar: seq<seq<real>>)
      returns (avg: Vector)
      requires Valid() && SweepDrawsFit(Configs(), drawsV, drawsW, NGibbs)
      requires SweepGradsDefined(Configs(), States(), drawsV, drawsW, NGibbs)
      requires GradInputsFit(gKappa, gVar, nLatent, NGibbs)
      modifies LatentSet(latents)
      ensures Valid() && States() == Sweeps(Configs(), old(States()), drawsV, drawsW, NGibbs)
      ensures avg == Scale(1.0 / (NGibbs as real),
                           SumVectors(SweepGrads(Configs(), old(States()), drawsV, drawsW, gKappa, gVar, NGibbs), nParas))
    {
      ghost var ss0 := States();
      avg := Zeros(nParas);
      var i := 0;
      while i < nGibbs
        invariant 0 <= i <= NGibbs && Valid()
        invariant States() == Sweeps(Configs(), ss0, drawsV, drawsW, i)
        invariant avg == SumVectors(SweepGrads(Configs(), ss0, drawsV, drawsW, gKappa, gVar, i), nParas)
      {
        avg := GibbsSweep(ss0, avg, drawsV, drawsW, gKappa, gVar, i);
        i := i + 1;
      }
      avg := Scale(1.0 / (nGibbs as real), avg);
    }
  }

}
