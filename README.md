# ngme2: the block model, its latent processes and the SGD driver

A model of the C++ core of ngme2 (a backup of the Rcpp engine). The engine fits non-Gaussian
latent-process models by stochastic gradient descent. Its parts:

- **Latent processes.** A `Latent` holds a process state W, its mixing variable V, a mean mu, a scale
  sigma and an operator K. Its parameters sit in four slots: kappa, mu, log sigma and theta_var.
  `opt_*` flags decide which slots are optimised.
- **Operators.** Two operator variants are modelled:
  - `GC`: K = kappa C + G;
  - the AR(1) operator: K = alpha C + G, where alpha = th2a(theta) lies in (-1, 1).
- **Block model.** A `BlockModel` sets its latents side by side:
  - their parameter blocks and state vectors lie end to end in latent order;
  - their operators sit on the diagonal of the global K, dK and d2K;
  - their observation matrices sit side by side in A.
- **`grad`.** It averages the stacked gradients over `n_gibbs = 20` Gibbs sweeps. Each sweep reads
  the gradient, then samples V given W, then samples W given V and Y.
- **`Optimizer::sgd`.** It steps x := x - stepsize grad. It records both trajectories and stops once
  the gradient norm is at most 1e-6 or the pass count passes `iterations`.

Files, in dependency order:

| file | what it models |
|---|---|
| `algebra.dfy` | The dense stand-ins for Eigen vectors and matrices (`seq<real>`, `seq<seq<real>>`). The effect of `setSparseBlock`. The offset arithmetic of laying vectors end to end and cutting them apart again. |
| `transcendental.dfy` | exp and log as any pair of functions with the laws the proofs need: exp > 0, log(exp x) = x, and exp(log y) = y for y > 0. |
| `operator.dfy` | `Operator` and its `GC` variant (src/operator.h). |
| `latent.dfy` | `Latent` as src/latent.h declares it. The pure expressions (getTheta, getGrad, getMean, getSV, grad_mu, grad_theta_sigma) are functions of a value view (LatentConfig, State). The class `Latent` holds the fields, and its mutators are proved against those functions. |
| `latent_mesh.dfy` | The other revision of the class (src/latent.cpp). It adds mesh-indexed mu and sigma, the `n_params` count, the normal-noise rule, `numerical_grad`, `grad_theta_mu` and `grad_theta_sigma`. |
| `ar1.dfy` | The AR(1) latent (src/latents/ar1.h): `ar_operator`, the change of variable th2a/a2th, `set_theta_K` and `get_theta_K`, and the analytic non-preconditioned gradient. |
| `block.dfy` | `BlockModel` (src/block.h, src/block.cpp). It is specified as functions over all latents' states, and its class methods are proved against them. |
| `optimizer.dfy` | `Optimizer::sgd` on its non-preconditioned path. It sees its model only as a starting parameter and a gradient oracle. |

src/latent.h and src/latent.cpp are two revisions of the same class with different fields. Each
is modelled on its own terms: `latent.dfy` follows latent.h, and `latent_mesh.dfy` follows
latent.cpp. Likewise, src/latents/ar1.h is written against an operator base class with a
parameter vector `parameter_K` rather than the `kappa` of src/operator.h. `Ar1.ArOperator` models
that revision. The AR latent derives from the latent class and reads its vector mu and n_mesh, so
`Ar1.Ar` holds its inherited part as a `LatentMesh.MeshLatent` (the latent.cpp revision).

The stacked vectors in `block.dfy` are stated through `Algebra.Flatten` and `Algebra.Split`. The
lemmas `FlattenSegment` and `SplitAt` say that part i sits at `Offset(sizes, i)`, the sum of the
earlier sizes. That offset is the running `pos` of the source's loops.

## Model

| member | source | states |
|---|---|---|
| Algebra.FlattenSegment | src/block.h:115-151 | In a vector stacked from parts, the segment [pos_i, pos_i + size_i) is exactly part i. pos_i is the sum of the earlier sizes. This holds for getMean, getSV, getW and get_parameter. |
| Algebra.SplitAt | src/block.cpp:19-26 | Cutting W at the latents' sizes gives latent i exactly W.segment(pos_i, size_i). |
| Algebra.FlattenSplit | src/block.cpp:19-26 | Cutting a vector at the sizes and stacking the parts again gives the vector back. |
| Algebra.SplitFlatten | src/block.h:213-220 | Stacking parts and cutting at their lengths gives back the same parts. |
| Algebra.SetBlock | src/block.h:107-109 | The effect of setSparseBlock: the block is copied with its corner at (r0, c0), and every other entry is kept. |
| Algebra.AffineDifference | src/latents/ar1.h:63-68 | The forward difference ((a+d)C + G - (aC + G))/d equals C for every non-zero d. |
| Transcendental.Exp | src/latent.h:146 | exp is positive, and log undoes it. |
| Transcendental.Log | src/latent.h:145 | On the positive reals, exp undoes log. |
| Operators.GcDerivative | src/operator.h:45-47 | dK = C is the derivative of K = kappa C + G: each of its difference quotients is C. |
| Operators.Operator.Default | src/operator.h:18 | `Operator()` starts with kappa = 1. |
| Operators.Operator.WithKappa | src/operator.h:19 | `Operator(k)` starts with kappa = k. |
| Operators.Operator.GcInit | src/operator.h:40-48 | The GC constructor sets kappa = a_init, K = kappa C + G, dK = C and d2K = 0 C. |
| Operators.Operator.Update | src/operator.h:50-52 | `update` recomputes K = kappa C + G and leaves kappa, dK and d2K unchanged. |
| Operators.Operator.SetKappa | src/operator.h:24-25 | After `setKappa(k)`, kappa is k and K = k C + G: update has run. dK and d2K are unchanged and the invariant is kept. |
| Latents.Theta | src/latent.h:156-165 | getTheta has n_paras = 4 slots. Slot 0 is theta_kappa, 1 is mu, 2 is log sigma and 3 is theta_var. |
| Latents.WithTheta | src/latent.h:179-184 | After setTheta, a flagged slot reads back theta[k] and an unflagged slot keeps its value. W, prevW, V, prevV, dK and d2K are unchanged, and the invariant is kept. |
| Latents.WithThetaOfTheta | src/latent.h:179-184 | setTheta(getTheta()) changes nothing, whatever the flags. In particular it leaves mu unchanged. |
| Latents.Mean | src/latent.h:84 | getMean is mu (V - h) = mu (V - 1) elementwise, of length n_reg. |
| Latents.SV | src/latent.h:87 | getSV is sigma^2 V elementwise, and it is positive. |
| Latents.GradMuNewtonStep | src/latent.h:208-222 | grad_mu is grad / hess. The numerator uses the current V and W, and the denominator only prevV. When prevV = V, mu - grad_mu is the weighted least-squares fit of mu to K W, whatever the current mu. |
| Latents.NewtonStepOf | src/latent.h:218-221 | The same Newton step stated on plain vectors V, h, K W, mu and sigma. |
| Latents.GradThetaSigmaZeroIff | src/latent.h:188-205 | grad_theta_sigma is 0 exactly when msq = n_reg sigma^2, that is, when the residuals fit sigma. |
| Latents.Grad | src/latent.h:167-177 | Each slot of getGrad whose opt flag is off is exactly 0, regardless of state. A flagged slot is that slot's gradient. |
| Latents.StepThroughSetTheta | src/latent.h:179-184 | Take a step theta - c g with g zero on the unflagged slots, as getGrad's is, and write it with setTheta. getTheta then reads back exactly that step, in every slot. |
| Latents.WithW | src/latent.h:82 | setW(w) sets prevW to the old W and W to w. Nothing else changes. |
| Latents.WithV | src/latent.h:90 | sample_cond_V with the drawn v sets prevV to the old V and V to v. Nothing else changes. |
| Latents.Latent.constructor | src/latent.h:40-73 | The flags and mu, sigma are as given, and h is n_reg ones. |
| Latents.Latent.SetW | src/latent.h:82 | The object's new state is WithW of the old one, and the invariant is kept. |
| Latents.Latent.SampleCondV | src/latent.h:90 | The object's new state is WithV of the old one. |
| Latents.Latent.SetKappa | src/latent.h:99-103 | The operator's kappa becomes the argument and K is recomputed. Nothing else changes. |
| Latents.Latent.SetTheta | src/latent.h:179-184 | The object's new state is WithTheta of the old one. |
| LatentMesh.FixFlags | src/latent.cpp:33-63 | fix_flag holds the four control flags, except that var_type "normal" forces fix_flag[1] = 1, so mu is frozen. |
| LatentMesh.MeshLatent.constructor | src/latent.cpp:9-73 | n_mu and n_sigma are the column counts. eps is the one from the control list. n_params = n_ope + n_mu + n_sigma + 1, and fix_flag is as FixFlags says. |
| LatentMesh.Perturb | src/latent.cpp:223-224 | The perturbed vector equals params everywhere except at index i, which is params(i) + eps. |
| LatentMesh.MeshLatent.NumericalGrad | src/latent.cpp:215-241 | The result has length n_ope. Without preconditioning, entry i is -((f(p + eps e_i) - f(p))/eps)/n_mesh. With it, entry i is num_g / ((f(p - eps e_i) + f(p + eps e_i) - 2 f(p))/eps^2). |
| LatentMesh.NumGradOfAffine | src/latent.cpp:221-237 | For an affine f = c + a.x the forward difference is exactly a_i, the unpreconditioned entry is -a_i/n_mesh, and the second difference is 0. |
| LatentMesh.MeshLatent.GradThetaMu | src/latent.cpp:93-98 | Entry l is -(1/n_mesh) times the weighted dot product of (V - h) and column l of B_mu over SV, against K W - mu (V - h). The result has length n_mu. |
| LatentMesh.MeshLatent.MuGradTransposed | src/latent.cpp:93-98 | The per-column loop equals the transposed form B_mu^T ((V - h) ./ SV .* residual). |
| LatentMesh.MeshLatent.MuGradZeroAtFit | src/latent.cpp:93-98 | With no residual (K W = mu (V - h)), every mu gradient is 0. |
| LatentMesh.MeshLatent.StationarySigmaZeroIff | src/latent.cpp:117-130 | With one sigma parameter, the result grad / (hess sigma + grad) is 0 exactly when msq = n_mesh sigma(0)^2. |
| LatentMesh.MeshLatent.NonStationarySigmaZeroAtFit | src/latent.cpp:147-156 | When every residual^2 / V equals sigma^2 at its node, the whole sigma gradient is 0. |
| Ar1.Th2aOf | src/latents/ar1.h:161-163 | For every e = exp(th) > 0, th2a = -1 + 2e/(1+e) lies strictly in (-1, 1). Also 1 + k = 2e/(1+e) and 1 - k = 2/(1+e). |
| Ar1.Th2a | src/latents/ar1.h:161-163 | th2a lands strictly in (-1, 1). |
| Ar1.RatioOfTh2a | src/latents/ar1.h:161-167 | At k = th2a(th), the ratio (-1-k)/(-1+k) inside a2th is exactly e. |
| Ar1.RatioPositive | src/latents/ar1.h:165-167 | The ratio inside a2th is positive on (-1, 1), so its log is defined. |
| Ar1.Th2aOfRatio | src/latents/ar1.h:161-167 | Conversely, th2a at e = ratio(k) gives k back, for every k in (-1, 1). |
| Ar1.A2thOfTh2a | src/latents/ar1.h:161-167 | a2th(th2a(th)) = th. |
| Ar1.Th2aOfA2th | src/latents/ar1.h:161-167 | th2a(a2th(k)) = k for k in (-1, 1). |
| Ar1.DaOf | src/latents/ar1.h:119 | da = 2e/(1+e)^2 is positive. |
| Ar1.DaThroughAlpha | src/latents/ar1.h:119 | da = (1 + alpha)(1 - alpha)/2, with alpha = th2a(th). |
| Ar1.GradThetaKChainRule | src/latents/ar1.h:128-132 | For alpha in (-1, 1), the non-preconditioned result -(trace - tmp) da / n_mesh is the gradient in alpha, -(trace - tmp)/n_mesh, times the factor (1 + alpha)(1 - alpha)/2 > 0. |
| Ar1.GradTmp | src/latents/ar1.h:128 | tmp = (dK W ./ SV) . (K W + (h - V) .* mu). It is 0 whenever K W meets the mean (V - h) .* mu, whatever dK is. |
| Ar1.Ar.GradThetaK | src/latents/ar1.h:109-132 | The non-preconditioned analytic grad_theta_K of the AR latent. tmp is taken from the operator's current K and dK and from the latent's W, h, V and mu, and the result is -(trace - tmp) da / n_mesh at th = a2th(alpha). For alpha in (-1, 1) this is the gradient in alpha times (1 + alpha)(1 - alpha)/2 > 0, and it is 0 exactly when trace = tmp. `Valid()` keeps the latent's K equal to the operator's K, so when the residual K W - mu .* (V - h) is 0, tmp is 0. |
| Ar1.ArOperator.constructor | src/latents/ar1.h:31-35 | G and C are stored, and the matrices are left for set_parameter. |
| Ar1.ArOperator.GetK | src/latents/ar1.h:51-55 | getK(alpha) = alpha(0) C + G, entry by entry. |
| Ar1.ArOperator.GetDKIsDerivative | src/latents/ar1.h:57-60 | get_dK returns C whatever alpha is, and that is the derivative of getK: every difference quotient of getK is C. |
| Ar1.ArOperator.SetParameter | src/latents/ar1.h:37-48 | set_parameter stores alpha and sets K = getK(alpha), dK = C and d2K = 0 C. With the numerical dK switched on, dK is still C. |
| Ar1.ArOperator.UpdateNumDK | src/latents/ar1.h:63-68 | dK = ((alpha + 0.01) C + G - K)/0.01, which equals C exactly when K = alpha C + G. Nothing else changes. |
| Ar1.Ar.constructor | src/latents/ar1.h:75-84 | The starting theta_K goes to the operator's set_parameter as is. Afterwards the inherited latent's K is the operator's K = getK(theta_K), as getK() returns ope->getK(), and `Valid()` holds. The inherited W, mu, sigma and V are kept as given. |
| Ar1.Ar.GetThetaK | src/latents/ar1.h:100-106 | get_theta_K is [a2th(alpha)], and on (-1, 1) th2a of it gives alpha back. |
| Ar1.Ar.SetThetaK | src/latents/ar1.h:153-159 | The operator parameter becomes th2a(theta(0)), which lies in (-1, 1). get_theta_K then returns theta. The inherited latent's K becomes the new getK(alpha), so `Valid()` is kept. W, mu, sigma and V are unchanged. |
| Blocks.ThetaSizes | src/latent.h:78 | Every latent's theta block has n_paras = 4 entries, so all blocks together have 4 n_latent. |
| Blocks.ParameterLayout | src/block.h:174-184 | get_parameter puts slot k of latent i's getTheta at 4 i + k: no gaps, no overlap, in latent order. |
| Blocks.ParameterSegment | src/block.h:213-220 | set_parameter gives latent i exactly the segment [4 i, 4 i + 4) of Theta. |
| Blocks.SetParameterOfGetParameter | src/block.h:174-223 | set_parameter(get_parameter()) changes no latent. |
| Blocks.GetParameterAfterSet | src/block.h:213-220 | After set_parameter(Theta), get_parameter at a flagged slot reads Theta's entry there. An unflagged slot reads what it read before. |
| Blocks.WithThetas | src/block.h:213-220 | Latent i gets setTheta with block i, and every latent keeps its invariant. |
| Blocks.WithWs | src/block.cpp:19-26 | Latent i gets setW with part i. |
| Blocks.GetWAfterSetW | src/block.cpp:19-26 | After setW(W), getW() returns W: the round trip with src/block.h:142-151. |
| Blocks.WithVs | src/block.cpp:29-34 | Latent i gets sample_cond_V with draw i. |
| Blocks.SumSweepGradsNext | src/block.h:196-203 | Adding sweep i's gradient to the sum of the first i gives the sum of the first i + 1. |
| Blocks.SweepGrads | src/block.h:190-206 | There is one stacked gradient per sweep, each of length n_paras. |
| Blocks.StackedGradMasked | src/block.h:196-201 | The stacked gradient is exactly 0 in every slot whose latent does not optimise it. |
| Blocks.AverageGradMasked | src/block.h:186-207 | So is the average over the 20 sweeps that grad returns. |
| Blocks.BlockDiagonal | src/block.h:104-113 | The block-diagonal matrix is square of side n_regs. An entry inside part b's square is block b's entry, and every other entry is 0. |
| Blocks.BlockDiagonalAt | src/block.h:104-113 | Latent i's block sits at diagonal offset (n_i, n_i), with n_i the cumulative size of the earlier latents. |
| Blocks.PlaceNext | src/block.h:107-111 | One pass of assemble's loop, setSparseBlock at (n, n) with n the offset of part k, places block k and keeps the earlier ones. |
| Blocks.PlacedAll | src/block.h:104-113 | Once every block is placed over a matrix that is 0 off the blocks, the result is the block-diagonal matrix. |
| Blocks.PlaceColumnsNext | src/block.h:74-78 | One pass of the constructor's loop places latent k's A at row 0, column n_k, and keeps the earlier ones. |
| Blocks.SideBySideAt | src/block.h:74-78 | In A, column q of part i holds column q - n_i of latent i's A. |
| Blocks.SetWs | src/block.cpp:19-26 | setW's loop: every latent's state becomes WithW with its own part, in latent order. |
| Blocks.SampleVs | src/block.cpp:29-34 | sampleV's loop: sample_cond_V runs once on every latent, each with its own draw. |
| Blocks.SetThetas | src/block.h:213-220 | set_parameter's loop: every latent's state becomes WithTheta with its own block. |
| Blocks.PlaceDiagonal | src/block.h:104-113 | assemble's loop turns K, dK and d2K into the block-diagonal matrices of the latents' K, dK and d2K. |
| Blocks.PlaceColumns | src/block.h:74-78 | The constructor's loop lays every latent's A side by side in A. |
| Blocks.Stack | src/block.h:115-125 | The `segment(pos, size) = part; pos += size` loop yields exactly the parts stacked in order. |
| Blocks.RnormVec | src/block.cpp:7-15 | rnorm_vec(n, mu, sigma) has length n, and entry i is mu + sigma z_i for the i-th standard draw. |
| Blocks.BlockModel.constructor | src/block.h:46-88 | n_gibbs = 20 and sigma_eps = 1. A holds the latents' A side by side, and K, dK, d2K are assembled. The latents' W is set from the initial W draw. |
| Blocks.BlockModel.GetParameter | src/block.h:174-184 | The result has length n_paras and is get_parameter of the latents' states. |
| Blocks.BlockModel.GetMean | src/block.h:116-125 | The result has length n_regs and is every latent's getMean stacked in order. |
| Blocks.BlockModel.GetSV | src/block.h:128-140 | The result has length n_regs and is every latent's getSV stacked in order. |
| Blocks.BlockModel.GetW | src/block.h:142-151 | The result has length n_regs and is every latent's W stacked in order. |
| Blocks.BlockModel.StackGrad | src/block.h:196-201 | The result has length n_paras and is every latent's getGrad stacked in order. |
| Blocks.BlockModel.SetW | src/block.cpp:19-26 | Latent i's state becomes WithW with W's segment i. K, dK and d2K stay the block diagonal of the operators. |
| Blocks.BlockModel.SampleVWY | src/block.h:91-95 | Latent i's state becomes WithV with draw i, in index order, and the assembled matrices stay valid. |
| Blocks.BlockModel.Assemble | src/block.h:104-113 | K, dK and d2K become the block diagonal of the latents' current operator matrices. A and the latents are untouched. |
| Blocks.BlockModel.SetParameter | src/block.h:213-223 | Latent i's state becomes WithTheta with Theta's segment i. The method always ends by reassembling, so K, dK and d2K reflect the new operators. |
| Blocks.BlockModel.GibbsSweep | src/block.h:190-206 | A pass adds sweep i's stacked gradient, read before sampling, to the running sum, which becomes the sum over the first i + 1 sweeps. It then moves the states from sweep i to sweep i + 1. |
| Blocks.BlockModel.Grad | src/block.h:186-211 | grad returns (1/n_gibbs) times the sum of the per-sweep stacked gradients, with the accumulator starting at 0. The latents end in the state after the 20 sweeps. |
| Optimizer.StepAppend | src/optimizer.cpp:31-36 | One pass x := x - stepsize grad, with both pushed onto the trajectories, keeps the step rule for every recorded pass. |
| Optimizer.RunFacts | src/optimizer.cpp:18-44 | From any point the loop has reached by its rule, it goes on by that rule and stops exactly once. |
| Optimizer.PassBound | src/optimizer.cpp:41-42 | A run that continued until its last pass and stopped there made at most max(1, iterations + 1) passes. |
| Optimizer.SgdRunFacts | src/optimizer.cpp:13-44 | Both trajectories have one entry per pass, and there is at least one pass. Pass k used the gradient after set_parameter had received x_traj[0..k), so set_parameter receives the x just appended. Every pass but the last had a gradient norm above the tolerance and count <= iterations, and the last stopped. At most max(1, iterations + 1) passes run. |
| Optimizer.SgdRunUnique | src/optimizer.cpp:18-44 | Any trajectories that follow this rule and stop by it are exactly the ones sgd returns. |
| Optimizer.Sgd | src/optimizer.cpp:4-47 | The loop returns exactly SgdRun(model, stepsize, iterations). So eps has no influence on the result, and all of SgdRunFacts holds of what it returns. |

## Left out

- Floating point: all arithmetic is over the reals. IEEE division by zero (inf/NaN) is not modelled. Where the source divides, the member requires a non-zero denominator: GradMu, GradThetaSigma, NumericalGrad with preconditioning, and eps != 0.
- LatentMesh.MeshLatent.Valid: requires n_mesh > 0, which LatentMesh.MeshLatent.GradThetaMu, LatentMesh.MeshLatent.NumericalGrad (unpreconditioned), LatentMesh.MeshLatent.GradThetaSigma and Ar1.Ar.GradThetaK rely on when they divide by n_mesh. The source divides without a check.
- Ar1.A2th, Ar1.Ar.GetThetaK, Ar1.GradThetaKOf and Ar1.Ar.GradThetaK require alpha != 1, where the source computes a2th(1) = log(-2/0). For alpha outside (-1, 1) the source takes the log of a negative number (NaN). The model returns log of that ratio, a value the laws of `Transcendental` leave unconstrained, and every property of a2th is stated on (-1, 1) only.
- exp and log are not computed. `Transcendental` takes any pair with the laws above.
- Random draws are parameters:
  - sample_cond_V's draw of V, which needs var.h and GIG sampling;
  - the standard normal draws of R::rnorm;
  - the rMVN draw of W in sampleW_VY.
- sampleW_VY: the Cholesky factorisation, the mean M and chol_Q.rMVN are not modelled. The step appears only as setW with the drawn W. In the source, block.cpp's sampleW_VY also refers to names that BlockModel does not declare: sigma, mu, h and getV.
- var.h is not part of this model. The mixing variable's V, prevV and theta_var live in Latent, and grad_theta_var is an input (gVar), as is the variant's grad_theta_kappa (gKappa).
- compute_trace, function_K and function_kappa use log-determinants and traces from external solvers. numerical_grad takes function_K as an uninterpreted function f. Ar1.Ar.GradThetaK takes trace as a number. Ar1.Ar.GradThetaK, LatentMesh.MeshLatent.GradThetaMu and LatentMesh.MeshLatent.MuColumnGrad take SV = getSV() as an argument, any non-zero vector, since the latent.cpp revision does not show getSV.
- The preconditioned branches are left out: sgd's LLT solve, and the hessian branch of grad_theta_K. precond() returns an empty matrix. `Optimizer.Sgd` keeps no preconditioner argument.
- The second sgd overload in src/optimizer.h is declared but never defined.
- The AR numerical gradient (numer_grad in grad_theta_K) is left out. The latent.cpp revision's numerical_grad models it.
- Blocks.BlockModel.constructor: the latents are built by the caller, not from Rcpp lists. The member requires n_paras = 4 n_latent and n_regs = the sum of the sizes, which the source assumes without checking. The source keeps only the latent lists of type "ar1", but n_latent counts every list, so a list of another type leaves fewer latents than n_latent and the n_latent loops (sampleV_WY, for instance) index past the end. The model takes n_latent to be the number of latents it is given, so that case is not modelled. inv_SV, the symbolic chol_Q.analyze and the debug output are left out.
- Latents.Latent.constructor: requires sigma > 0 and V > 0 of length n_reg. The source sets these from R inputs without checks. It also takes the variant's operator and the initial V and theta_var as arguments.
- Latents.Latent.constructor and LatentMesh.MeshLatent.constructor: Eigen leaves W and prevW uninitialised; here they start at 0.
- Latents.Latent.SetKappa: the trace refresh (compute_trace) is not modelled. Likewise for Ar1.Ar.SetThetaK.
- latent.h's get_theta_kappa and set_theta_kappa are pure virtual. The model reads slot 0 as the operator's kappa, the R-interface convention stated at the top of src/latents/ar1.h.
- Rcpp list parsing, src/RcppExports.cpp, testResult, the BlockModel default constructor, timers and std::cout output are left out.
- The sparse encoding is left out: matrices are dense sequences, and setSparseBlock is specified only by its effect (include/MatrixAlgebra.h is not part of this model).
- Integer widths: n_reg, n_mesh and the counts are unbounded naturals. n_mesh / sigma and similar mixed int/double divisions are taken over the reals.
- Optimizer.Sgd: the model behind the driver is abstract. It is a starting parameter and a function from the history of set_parameter arguments to the gradient that grad returns. The block model's grad is one such function once its random draws are fixed.
