/**
 * Dense stand-ins for the Eigen vectors and sparse matrices the system works with,
 * the effect of `setSparseBlock` (a block copied into a matrix at an offset), and
 * the offset arithmetic of laying vectors end to end.
 */
module Algebra {

  type Vector = seq<real>
  type Matrix = seq<seq<real>>

  // ---------------------------------------------------------------------------
  // Sizes and offsets

  /** The sum of a sequence of sizes, taken from the left. */
  function Sum(s: seq<nat>): nat
  {
    if s == [] then 0 else Sum(s[..|s| - 1]) + s[|s| - 1]
  }

  /** Where part i starts when parts of sizes s are laid end to end. */
  function Offset(s: seq<nat>, i: nat): nat
    requires i <= |s|
  {
    Sum(s[..i])
  }

  lemma OffsetStep(s: seq<nat>, i: nat)
    requires i < |s|
    ensures Offset(s, i + 1) == Offset(s, i) + s[i]
  {
    assert s[..i + 1][..i] == s[..i];
  }

  lemma OffsetEnd(s: seq<nat>)
    ensures Offset(s, |s|) == Sum(s)
  {
    assert s[..|s|] == s;
  }

  lemma {:induction false} OffsetMono(s: seq<nat>, i: nat, j: nat)
    requires i <= j <= |s|
    ensures Offset(s, i) <= Offset(s, j)
    decreases j - i
  {
    if i < j {
      OffsetStep(s, j - 1);
      OffsetMono(s, i, j - 1);
    }
  }

  /** Part i of the layout lies inside the total: Offset(s, i) + s[i] <= Sum(s). */
  lemma OffsetBound(s: seq<nat>, i: nat)
    requires i < |s|
    ensures Offset(s, i) + s[i] == Offset(s, i + 1) <= Sum(s)
  {
    OffsetStep(s, i);
    OffsetMono(s, i + 1, |s|);
    OffsetEnd(s);
  }

  /** Offsets only depend on the sizes before the part. */
  lemma OffsetPrefix(s: seq<nat>, t: seq<nat>, i: nat)
    requires i <= |s| && i <= |t| && s[..i] == t[..i]
    ensures Offset(s, i) == Offset(t, i)
  {
  }

  /** The part that position p of the layout falls in. */
  function BlockIndex(s: seq<nat>, p: nat): (b: nat)
    requires p < Sum(s)
    ensures b < |s|
  {
    var n := |s| - 1;
    if p >= Sum(s[..n]) then n
    else
      assert s[..n][..n] == s[..n];
      BlockIndex(s[..n], p)
  }

  /** Position p lies in part BlockIndex(s, p), and in no other part. */
  lemma {:induction false} BlockIndexSpec(s: seq<nat>, p: nat)
    requires p < Sum(s)
    ensures var b := BlockIndex(s, p);
      b < |s| && Offset(s, b) <= p < Offset(s, b) + s[b]
  {
    var n := |s| - 1;
    var b := BlockIndex(s, p);
    assert s[..n + 1] == s;
    OffsetStep(s, n);
    if p < Sum(s[..n]) {
      BlockIndexSpec(s[..n], p);
      assert s[..n][..b] == s[..b];
      assert s[..n][b] == s[b];
    }
  }

  /** The part containing a position is unique. */
  lemma BlockIndexUnique(s: seq<nat>, p: nat, j: nat)
    requires j < |s| && Offset(s, j) <= p < Offset(s, j) + s[j]
    ensures p < Sum(s) && BlockIndex(s, p) == j
  {
    OffsetBound(s, j);
    BlockIndexSpec(s, p);
    var b := BlockIndex(s, p);
    if b < j {
      OffsetBound(s, b);
      OffsetMono(s, b + 1, j);
    } else if j < b {
      OffsetBound(s, j);
      OffsetMono(s, j + 1, b);
    }
  }

  // ---------------------------------------------------------------------------
  // Laying vectors end to end and cutting them apart

  function Lengths(parts: seq<Vector>): (s: seq<nat>)
    ensures |s| == |parts|
  {
    seq(|parts|, i requires 0 <= i < |parts| => |parts[i]|)
  }

  /** The parts written one after the other: what a loop of `segment(pos, size) = part_i; pos += size` builds. */
  function Flatten(parts: seq<Vector>): Vector
  {
    if parts == [] then [] else Flatten(parts[..|parts| - 1]) + parts[|parts| - 1]
  }

  lemma {:induction false} FlattenLength(parts: seq<Vector>)
    ensures |Flatten(parts)| == Sum(Lengths(parts))
  {
    if parts != [] {
      var n := |parts| - 1;
      FlattenLength(parts[..n]);
      assert Lengths(parts)[..n] == Lengths(parts[..n]);
    }
  }

  /** Part i of a flattened vector sits at the offset of part i, and is that part. */
  lemma {:induction false} FlattenSegment(parts: seq<Vector>, i: nat)
    requires i < |parts|
    ensures var L := Lengths(parts);
      Offset(L, i) + |parts[i]| <= |Flatten(parts)| &&
      Flatten(parts)[Offset(L, i)..Offset(L, i) + |parts[i]|] == parts[i]
  {
    var n := |parts| - 1;
    var L := Lengths(parts);
    var front := Flatten(parts[..n]);
    assert Flatten(parts) == front + parts[n];
    FlattenLength(parts[..n]);
    assert L[..n] == Lengths(parts[..n]);
    if i == n {
      assert Offset(L, n) == Sum(Lengths(parts[..n])) == |front|;
      assert (front + parts[n])[|front|..|front| + |parts[n]|] == parts[n];
    } else {
      FlattenSegment(parts[..n], i);
      assert L[..n][..i] == L[..i];
      OffsetPrefix(L, Lengths(parts[..n]), i);
      var o := Offset(L, i);
      assert front[o..o + |parts[i]|] == parts[i];
      assert (front + parts[n])[o..o + |parts[i]|] == front[o..o + |parts[i]|];
    }
  }

  /** Cuts v into consecutive segments of sizes s. */
  function Split(v: Vector, s: seq<nat>): (parts: seq<Vector>)
    requires |v| == Sum(s)
    ensures |parts| == |s| && forall i :: 0 <= i < |s| ==> |parts[i]| == s[i]
    decreases s
  {
    if s == [] then []
    else
      var n := |s| - 1;
      Split(v[..Sum(s[..n])], s[..n]) + [v[Sum(s[..n])..]]
  }

  /** Segment i of Split(v, s) is v[Offset(s, i) .. Offset(s, i + 1)]. */
  lemma {:induction false} SplitAt(v: Vector, s: seq<nat>, i: nat)
    requires |v| == Sum(s) && i < |s|
    ensures Offset(s, i) <= Offset(s, i + 1) <= |v|
    ensures Split(v, s)[i] == v[Offset(s, i)..Offset(s, i + 1)]
    decreases s
  {
    OffsetBound(s, i);
    var n := |s| - 1;
    var front := v[..Sum(s[..n])];
    assert Split(v, s) == Split(front, s[..n]) + [v[Sum(s[..n])..]];
    if i < n {
      SplitAt(front, s[..n], i);
      OffsetsOfFront(s, i);
      assert front[Offset(s, i)..Offset(s, i + 1)] == v[Offset(s, i)..Offset(s, i + 1)];
    } else {
      OffsetEnd(s);
    }
  }

  /** For a part before the last, its offsets are the same without the last part, and lie inside it. */
  lemma OffsetsOfFront(s: seq<nat>, i: nat)
    requires i + 1 < |s|
    ensures Offset(s[..|s| - 1], i) == Offset(s, i)
    ensures Offset(s[..|s| - 1], i + 1) == Offset(s, i + 1)
    ensures Offset(s, i) <= Offset(s, i + 1) <= Sum(s[..|s| - 1])
  {
    var n := |s| - 1;
    assert s[..n][..i] == s[..i];
    assert s[..n][..i + 1] == s[..i + 1];
    OffsetBound(s[..n], i);
  }

  /** Cutting and concatenating again gives back the vector. */
  lemma {:induction false} FlattenSplit(v: Vector, s: seq<nat>)
    requires |v| == Sum(s)
    ensures Flatten(Split(v, s)) == v
    decreases s
  {
    if s != [] {
      var n := |s| - 1;
      var parts := Split(v, s);
      FlattenSplit(v[..Sum(s[..n])], s[..n]);
      assert parts[..n] == Split(v[..Sum(s[..n])], s[..n]);
    }
  }

  /** Concatenating and cutting at the parts' own lengths gives back the parts. */
  lemma {:induction false} SplitFlatten(parts: seq<Vector>)
    ensures |Flatten(parts)| == Sum(Lengths(parts))
    ensures Split(Flatten(parts), Lengths(parts)) == parts
  {
    FlattenLength(parts);
    if parts != [] {
      var n := |parts| - 1;
      var L := Lengths(parts);
      assert L[..n] == Lengths(parts[..n]);
      FlattenLength(parts[..n]);
      SplitFlatten(parts[..n]);
      assert Flatten(parts)[..Sum(L[..n])] == Flatten(parts[..n]);
    }
  }

  /** The vector v with the segment starting at pos overwritten by part (Eigen's `segment(pos, n) = part`). */
  function WriteSegment(v: Vector, pos: nat, part: Vector): (r: Vector)
    requires pos + |part| <= |v|
    ensures |r| == |v|
    ensures r[pos..pos + |part|] == part
    ensures r[..pos] == v[..pos] && r[pos + |part|..] == v[pos + |part|..]
  {
    v[..pos] + part + v[pos + |part|..]
  }

  /** Segment i of Split(v, s) has length s[i]. */
  lemma SplitLengths(v: Vector, s: seq<nat>)
    requires |v| == Sum(s)
    ensures Lengths(Split(v, s)) == s
  {
    forall i | 0 <= i < |s|
      ensures |Split(v, s)[i]| == s[i]
    {
      SplitAt(v, s, i);
      OffsetStep(s, i);
    }
  }

  /**
   * One step of a `segment(pos, size) = part_k; pos += size` loop over a vector of the final
   * length that started as zeros: the parts before k followed by zeros becomes the parts up to
   * and including k followed by zeros, and pos is the offset of part k.
   */
  lemma WriteNext(parts: seq<Vector>, k: nat, total: nat)
    requires k < |parts| && Sum(Lengths(parts)) == total
    ensures |Flatten(parts[..k])| == Offset(Lengths(parts), k)
    ensures |Flatten(parts[..k + 1])| == Offset(Lengths(parts), k + 1) <= total
    ensures Offset(Lengths(parts), k + 1) == Offset(Lengths(parts), k) + |parts[k]|
    ensures WriteSegment(Flatten(parts[..k]) + Zeros(total - Offset(Lengths(parts), k)),
                         Offset(Lengths(parts), k), parts[k])
         == Flatten(parts[..k + 1]) + Zeros(total - Offset(Lengths(parts), k + 1))
  {
    var L := Lengths(parts);
    FlattenLength(parts[..k]);
    FlattenLength(parts[..k + 1]);
    assert Lengths(parts[..k]) == L[..k];
    assert Lengths(parts[..k + 1]) == L[..k + 1];
    OffsetBound(L, k);
    OffsetEnd(L);
    assert parts[..k + 1][..k] == parts[..k];
    assert Flatten(parts[..k + 1]) == Flatten(parts[..k]) + parts[k];
    var F := Flatten(parts[..k]);
    var o := Offset(L, k);
    var v := F + Zeros(total - o);
    var w := WriteSegment(v, o, parts[k]);
    assert v[..o] == F;
    assert v[o + |parts[k]|..] == Zeros(total - Offset(L, k + 1));
  }

  /** The loop of WriteNext, finished: all parts written leaves no zeros behind. */
  lemma WriteDone(parts: seq<Vector>, total: nat)
    requires Sum(Lengths(parts)) == total
    ensures Offset(Lengths(parts), |parts|) == total
    ensures Flatten(parts[..|parts|]) + Zeros(total - Offset(Lengths(parts), |parts|)) == Flatten(parts)
  {
    OffsetEnd(Lengths(parts));
    assert parts[..|parts|] == parts;
    FlattenLength(parts);
  }

  // ---------------------------------------------------------------------------
  // Vector arithmetic

  function Zeros(n: nat): (r: Vector)
    ensures |r| == n && forall i :: 0 <= i < n ==> r[i] == 0.0
  {
    seq(n, i => 0.0)
  }

  function Add(a: Vector, b: Vector): (r: Vector)
    requires |a| == |b|
    ensures |r| == |a| && forall i :: 0 <= i < |a| ==> r[i] == a[i] + b[i]
  {
    seq(|a|, i requires 0 <= i < |a| => a[i] + b[i])
  }

  function Scale(c: real, a: Vector): (r: Vector)
    ensures |r| == |a| && forall i :: 0 <= i < |a| ==> r[i] == c * a[i]
  {
    seq(|a|, i requires 0 <= i < |a| => c * a[i])
  }

  function Sub(a: Vector, b: Vector): (r: Vector)
    requires |a| == |b|
    ensures |r| == |a| && forall i :: 0 <= i < |a| ==> r[i] == a[i] - b[i]
  {
    seq(|a|, i requires 0 <= i < |a| => a[i] - b[i])
  }

  /** The sum of a[i] * b[i] over the first n entries. */
  function DotTo(a: Vector, b: Vector, n: nat): real
    requires n <= |a| && n <= |b|
  {
    if n == 0 then 0.0 else DotTo(a, b, n - 1) + a[n - 1] * b[n - 1]
  }

  /** The inner product (Eigen's `dot`). */
  function Dot(a: Vector, b: Vector): real
    requires |a| == |b|
  {
    DotTo(a, b, |a|)
  }

  /** Entry-wise product (Eigen's `cwiseProduct`). */
  function Mul(a: Vector, b: Vector): (r: Vector)
    requires |a| == |b|
    ensures |r| == |a| && forall i :: 0 <= i < |a| ==> r[i] == a[i] * b[i]
  {
    seq(|a|, i requires 0 <= i < |a| => a[i] * b[i])
  }

  /** x / d, characterised by multiplication so that callers need no division reasoning. */
  function Quotient(x: real, d: real): (r: real)
    requires d != 0.0
    ensures r * d == x
  {
    x / d
  }

  lemma QuotientZero(x: real, d: real)
    requires d != 0.0
    ensures Quotient(x, d) == 0.0 <==> x == 0.0
  {
    var r := Quotient(x, d);
    assert r * d == x;
  }

  /** x to the power k (C's `pow` with a natural exponent). */
  function Pow(x: real, k: nat): (r: real)
    ensures x > 0.0 ==> r > 0.0
  {
    if k == 0 then 1.0 else x * Pow(x, k - 1)
  }

  /** x to the power -k, for x > 0. */
  function PowNeg(x: real, k: nat): (r: real)
    requires x > 0.0
    ensures r > 0.0 && r * Pow(x, k) == 1.0
  {
    1.0 / Pow(x, k)
  }

  lemma PositiveProduct(a: real, b: real)
    requires a > 0.0 && b > 0.0
    ensures a * b > 0.0
  {
  }

  ghost predicate NonZero(v: Vector)
  {
    forall i :: 0 <= i < |v| ==> v[i] != 0.0
  }

  ghost predicate Positive(v: Vector)
  {
    forall i :: 0 <= i < |v| ==> v[i] > 0.0
  }

  lemma ScalePositive(c: real, v: Vector)
    requires c > 0.0 && Positive(v)
    ensures Positive(Scale(c, v))
  {
    forall i | 0 <= i < |v| ensures Scale(c, v)[i] > 0.0 {
      PositiveProduct(c, v[i]);
    }
  }

  /** Entry-wise inverse (Eigen's `cwiseInverse`). */
  function Inverse(v: Vector): (r: Vector)
    requires NonZero(v)
    ensures |r| == |v| && forall i :: 0 <= i < |v| ==> r[i] == 1.0 / v[i]
  {
    seq(|v|, i requires 0 <= i < |v| => 1.0 / v[i])
  }

  /** Dot is linear in its second argument: a . (b - c d) = a . b - c (a . d). */
  lemma DotLinear(a: Vector, b: Vector, c: real, d: Vector)
    requires |a| == |b| == |d|
    ensures Dot(a, Sub(b, Scale(c, d))) == Dot(a, b) - c * Dot(a, d)
  {
    DotToLinear(a, b, c, d, |a|);
  }

  lemma {:induction false} DotToLinear(a: Vector, b: Vector, c: real, d: Vector, n: nat)
    requires |a| == |b| == |d| && n <= |a|
    ensures DotTo(a, Sub(b, Scale(c, d)), n) == DotTo(a, b, n) - c * DotTo(a, d, n)
  {
    if n > 0 {
      DotToLinear(a, b, c, d, n - 1);
      var e := Sub(b, Scale(c, d));
      assert e[n - 1] == b[n - 1] - c * d[n - 1];
      Regroup(DotTo(a, b, n - 1), DotTo(a, d, n - 1), a[n - 1], b[n - 1], d[n - 1], c);
    }
  }

  /** (P - c Q) + x (y - c z) == (P + x y) - c (Q + x z). */
  lemma Regroup(P: real, Q: real, x: real, y: real, z: real, c: real)
    ensures (P - c * Q) + x * (y - c * z) == (P + x * y) - c * (Q + x * z)
  {
  }

  /** The squared Euclidean norm; `v.norm() <= t` is `SquaredNorm(v) <= t * t` for t >= 0. */
  function SquaredNorm(v: Vector): real
  {
    Dot(v, v)
  }

  /** The sum of a sequence of equally long vectors. */
  function SumVectors(vs: seq<Vector>, n: nat): (r: Vector)
    requires forall k :: 0 <= k < |vs| ==> |vs[k]| == n
    ensures |r| == n
  {
    if vs == [] then Zeros(n) else Add(SumVectors(vs[..|vs| - 1], n), vs[|vs| - 1])
  }

  // ---------------------------------------------------------------------------
  // Matrices

  ghost predicate IsMatrix(M: Matrix, rows: nat, cols: nat)
  {
    |M| == rows && forall r :: 0 <= r < rows ==> |M[r]| == cols
  }

  function ZeroMatrix(rows: nat, cols: nat): (Z: Matrix)
    ensures IsMatrix(Z, rows, cols)
    ensures forall r, c :: 0 <= r < rows && 0 <= c < cols ==> Z[r][c] == 0.0
  {
    seq(rows, r => Zeros(cols))
  }

  /** a * C + G, entry by entry. */
  function Affine(a: real, C: Matrix, G: Matrix): (K: Matrix)
    requires |C| == |G| && forall r :: 0 <= r < |C| ==> |C[r]| == |G[r]|
    ensures |K| == |C| && forall r :: 0 <= r < |C| ==> |K[r]| == |C[r]|
    ensures forall r, c :: 0 <= r < |C| && 0 <= c < |C[r]| ==> K[r][c] == a * C[r][c] + G[r][c]
  {
    seq(|C|, r requires 0 <= r < |C| =>
      seq(|C[r]|, c requires 0 <= c < |C[r]| => a * C[r][c] + G[r][c]))
  }

  /** (P - Q) / d, entry by entry. */
  function DiffQuotient(P: Matrix, Q: Matrix, d: real): (D: Matrix)
    requires d != 0.0
    requires |P| == |Q| && forall r :: 0 <= r < |P| ==> |P[r]| == |Q[r]|
    ensures |D| == |P| && forall r :: 0 <= r < |P| ==> |D[r]| == |P[r]|
    ensures forall r, c :: 0 <= r < |P| && 0 <= c < |P[r]| ==> D[r][c] == (P[r][c] - Q[r][c]) / d
  {
    seq(|P|, r requires 0 <= r < |P| =>
      seq(|P[r]|, c requires 0 <= c < |P[r]| => (P[r][c] - Q[r][c]) / d))
  }

  /** The forward difference of a -> a C + G with any step d is exactly C. */
  lemma AffineDifference(a: real, d: real, C: Matrix, G: Matrix)
    requires d != 0.0
    requires |C| == |G| && forall r :: 0 <= r < |C| ==> |C[r]| == |G[r]|
    ensures DiffQuotient(Affine(a + d, C, G), Affine(a, C, G), d) == C
  {
    var D := DiffQuotient(Affine(a + d, C, G), Affine(a, C, G), d);
    forall r | 0 <= r < |C|
      ensures D[r] == C[r]
    {
      forall c | 0 <= c < |C[r]|
        ensures D[r][c] == C[r][c]
      {
        var x, g := C[r][c], G[r][c];
        assert (a + d) * x + g - (a * x + g) == d * x;
        assert d * x / d == x;
      }
    }
  }

  /** c * M, entry by entry. */
  function MatScale(c: real, M: Matrix): (R: Matrix)
    ensures |R| == |M| && forall r :: 0 <= r < |M| ==> |R[r]| == |M[r]|
    ensures forall r, k :: 0 <= r < |M| && 0 <= k < |M[r]| ==> R[r][k] == c * M[r][k]
  {
    seq(|M|, r requires 0 <= r < |M| => Scale(c, M[r]))
  }

  /** The row-by-vector products M * x. */
  function MatVec(M: Matrix, x: Vector): (y: Vector)
    requires forall r :: 0 <= r < |M| ==> |M[r]| == |x|
    ensures |y| == |M| && forall r :: 0 <= r < |M| ==> y[r] == Dot(M[r], x)
  {
    seq(|M|, r requires 0 <= r < |M| => Dot(M[r], x))
  }

  /** Column c of a matrix with at least c + 1 columns in every row. */
  function Column(M: Matrix, c: nat): (col: Vector)
    requires forall r :: 0 <= r < |M| ==> c < |M[r]|
    ensures |col| == |M| && forall r :: 0 <= r < |M| ==> col[r] == M[r][c]
  {
    seq(|M|, r requires 0 <= r < |M| => M[r][c])
  }

  /**
   * The effect of `setSparseBlock(&M, r0, c0, B)`: B copied into M with its top-left corner at
   * (r0, c0); every other entry of M is kept.
   */
  function SetBlock(M: Matrix, r0: nat, c0: nat, B: Matrix, bRows: nat, bCols: nat): (R: Matrix)
    requires IsMatrix(B, bRows, bCols)
    requires r0 + bRows <= |M| && forall r :: 0 <= r < |M| ==> c0 + bCols <= |M[r]|
    ensures |R| == |M| && forall r :: 0 <= r < |M| ==> |R[r]| == |M[r]|
    ensures forall r, c :: 0 <= r < |M| && 0 <= c < |M[r]| ==>
      R[r][c] == if r0 <= r < r0 + bRows && c0 <= c < c0 + bCols then B[r - r0][c - c0] else M[r][c]
  {
    seq(|M|, r requires 0 <= r < |M| =>
      seq(|M[r]|, c requires 0 <= c < |M[r]| =>
        if r0 <= r < r0 + bRows && c0 <= c < c0 + bCols then B[r - r0][c - c0] else M[r][c]))
  }

  /** Entry (r, c) after SetBlock: B's inside the block, M's outside it. */
  lemma SetBlockEntry(M: Matrix, r0: nat, c0: nat, B: Matrix, bRows: nat, bCols: nat, r: nat, c: nat)
    requires IsMatrix(B, bRows, bCols)
    requires r0 + bRows <= |M| && forall r :: 0 <= r < |M| ==> c0 + bCols <= |M[r]|
    requires r < |M| && c < |M[r]|
    ensures SetBlock(M, r0, c0, B, bRows, bCols)[r][c]
         == if r0 <= r < r0 + bRows && c0 <= c < c0 + bCols then B[r - r0][c - c0] else M[r][c]
  {
  }
}
