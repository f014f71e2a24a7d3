/** Gaussian noise models (src/noise/gaussian.rs), stored as the N×N square
    root information matrix. Scalars are idealised as reals; a square root is
    passed in as a function, since only where it is applied matters here. */
module Gaussian {
  import opened Util

  /** A matrix as a sequence of rows. */
  type Matrix = seq<seq<real>>

  predicate IsSquare(m: Matrix, n: nat)
  {
    |m| == n && forall i :: 0 <= i < n ==> |m[i]| == n
  }

  /** `m` has at least an n×n leading block. */
  predicate CoversBlock(m: Matrix, n: nat)
  {
    |m| >= n && forall i :: 0 <= i < n ==> |m[i]| >= n
  }

  /** `GaussianNoise<N>` with its square root information matrix. */
  datatype GaussianNoise = GaussianNoise(n: nat, sqrtInf: Matrix)
  {
    predicate Valid()
    {
      IsSquare(sqrtInf, n)
    }
  }

  function Repeat(k: nat, v: real): (r: seq<real>)
    ensures |r| == k && forall i :: 0 <= i < k ==> r[i] == v
  {
    seq(k, _ => v)
  }

  /** The square matrix with `d` on its diagonal and zeros elsewhere. */
  function FromDiagonal(d: seq<real>): (m: Matrix)
    ensures IsSquare(m, |d|)
    ensures forall i, j :: 0 <= i < |d| && 0 <= j < |d| ==> m[i][j] == if i == j then d[i] else 0.0
  {
    seq(|d|, i requires 0 <= i < |d| => seq(|d|, j requires 0 <= j < |d| => if i == j then d[i] else 0.0))
  }

  /** The entries of the leading diagonal. */
  function Diagonal(m: Matrix, n: nat): (d: seq<real>)
    requires CoversBlock(m, n)
    ensures |d| == n && forall i :: 0 <= i < n ==> d[i] == m[i][i]
  {
    seq(n, i requires 0 <= i < n => m[i][i])
  }

  /** The diagonal laid out by the split constructors: `a` on the first
      `n / 2` slots and `b` on the remaining `n - n / 2`. */
  function SplitDiagonal(n: nat, a: real, b: real): (d: seq<real>)
    ensures |d| == n
    ensures forall i :: 0 <= i < n ==> d[i] == if i < n / 2 then a else b
  {
    Repeat(n / 2, a) + Repeat(n - n / 2, b)
  }

  predicate NonZero(v: seq<real>)
  {
    forall i :: 0 <= i < |v| ==> v[i] != 0.0
  }

  function Reciprocals(v: seq<real>): (r: seq<real>)
    requires NonZero(v)
    ensures |r| == |v| && forall i :: 0 <= i < |v| ==> r[i] == 1.0 / v[i]
  {
    seq(|v|, i requires 0 <= i < |v| => 1.0 / v[i])
  }

  /** `from_scalar_sigma`: every diagonal slot holds `1 / sigma`. */
  function FromScalarSigma(n: nat, sigma: real): (g: GaussianNoise)
    requires sigma != 0.0
    ensures g.Valid() && g.n == n
    ensures forall i, j :: 0 <= i < n && 0 <= j < n ==>
      g.sqrtInf[i][j] == if i == j then 1.0 / sigma else 0.0
  {
    GaussianNoise(n, FromDiagonal(Repeat(n, 1.0 / sigma)))
  }

  /** `from_scalar_cov`: every diagonal slot holds `1 / sqrt(cov)`. */
  function FromScalarCov(n: nat, cov: real, sqrt: real -> real): (g: GaussianNoise)
    requires sqrt(cov) != 0.0
    ensures g.Valid() && g.n == n
    ensures forall i, j :: 0 <= i < n && 0 <= j < n ==>
      g.sqrtInf[i][j] == if i == j then 1.0 / sqrt(cov) else 0.0
  {
    GaussianNoise(n, FromDiagonal(Repeat(n, 1.0 / sqrt(cov))))
  }

  /** `from_vec_sigma`: slot `i` holds `1 / sigma[i]`. */
  function FromVecSigma(sigma: seq<real>): (g: GaussianNoise)
    requires NonZero(sigma)
    ensures g.Valid() && g.n == |sigma|
    ensures forall i, j :: 0 <= i < |sigma| && 0 <= j < |sigma| ==>
      g.sqrtInf[i][j] == if i == j then 1.0 / sigma[i] else 0.0
  {
    GaussianNoise(|sigma|, FromDiagonal(Reciprocals(sigma)))
  }

  /** `from_vec_cov`: slot `i` holds `1 / sqrt(cov[i])`. */
  function FromVecCov(cov: seq<real>, sqrt: real -> real): (g: GaussianNoise)
    requires forall i :: 0 <= i < |cov| ==> sqrt(cov[i]) != 0.0
    ensures g.Valid() && g.n == |cov|
    ensures forall i, j :: 0 <= i < |cov| && 0 <= j < |cov| ==>
      g.sqrtInf[i][j] == if i == j then 1.0 / sqrt(cov[i]) else 0.0
  {
    GaussianNoise(|cov|, FromDiagonal(seq(|cov|, i requires 0 <= i < |cov| => 1.0 / sqrt(cov[i]))))
  }

  /** `from_vec_inf`: slot `i` holds `sqrt(inf[i])`. */
  function FromVecInf(inf: seq<real>, sqrt: real -> real): (g: GaussianNoise)
    ensures g.Valid() && g.n == |inf|
    ensures forall i, j :: 0 <= i < |inf| && 0 <= j < |inf| ==>
      g.sqrtInf[i][j] == if i == j then sqrt(inf[i]) else 0.0
  {
    GaussianNoise(|inf|, FromDiagonal(seq(|inf|, i requires 0 <= i < |inf| => sqrt(inf[i]))))
  }

  /** `from_diag_sigmas`, generated for N = 1..6: the sigmas as separate
      arguments, handed on to `from_vec_sigma`. */
  function FromDiagSigmas(sigmas: seq<real>): (g: GaussianNoise)
    requires 1 <= |sigmas| <= 6 && NonZero(sigmas)
    ensures g.Valid() && g.n == |sigmas|
    ensures forall i, j :: 0 <= i < |sigmas| && 0 <= j < |sigmas| ==>
      g.sqrtInf[i][j] == if i == j then 1.0 / sigmas[i] else 0.0
  {
    FromVecSigma(sigmas)
  }

  /** `from_diag_covs`, generated for N = 1..6, handed on to `from_vec_cov`. */
  function FromDiagCovs(covs: seq<real>, sqrt: real -> real): (g: GaussianNoise)
    requires 1 <= |covs| <= 6 && forall i :: 0 <= i < |covs| ==> sqrt(covs[i]) != 0.0
    ensures g.Valid() && g.n == |covs|
    ensures forall i, j :: 0 <= i < |covs| && 0 <= j < |covs| ==>
      g.sqrtInf[i][j] == if i == j then 1.0 / sqrt(covs[i]) else 0.0
  {
    FromVecCov(covs, sqrt)
  }

  /** The n×n zero matrix. */
  function Zeros(n: nat): (m: Matrix)
    ensures IsSquare(m, n)
    ensures forall i, j :: 0 <= i < n && 0 <= j < n ==> m[i][j] == 0.0
  {
    seq(n, _ => seq(n, _ => 0.0))
  }

  /** The two loops of the split constructors: start from zeros, write
      `inf1` to slots `0 .. n/2` and then `inf2` to slots `n/2 .. n`. */
  method FillSplitDiagonal(n: nat, inf1: real, inf2: real) returns (m: Matrix)
    ensures m == FromDiagonal(SplitDiagonal(n, inf1, inf2))
  {
    m := Zeros(n);
    for i := 0 to n / 2
      invariant IsSquare(m, n)
      invariant forall r, c :: 0 <= r < n && 0 <= c < n ==>
        m[r][c] == if r == c && r < i then inf1 else 0.0
    {
      m := m[i := m[i][i := inf1]];
    }
    for i := n / 2 to n
      invariant IsSquare(m, n)
      invariant forall r, c :: 0 <= r < n && 0 <= c < n ==>
        m[r][c] == if r != c then 0.0 else if r < n / 2 then inf1 else if r < i then inf2 else 0.0
    {
      m := m[i := m[i][i := inf2]];
    }
    var expected := FromDiagonal(SplitDiagonal(n, inf1, inf2));
    forall r | 0 <= r < n
      ensures m[r] == expected[r]
    {
    }
  }

  /** `from_split_sigma`: `1 / sigma1` on the first `n / 2` slots and
      `1 / sigma2` on the rest, so for odd `n` the first group is one shorter. */
  method FromSplitSigma(n: nat, sigma1: real, sigma2: real) returns (g: GaussianNoise)
    requires sigma1 != 0.0 && sigma2 != 0.0
    ensures g.Valid() && g.n == n
    ensures forall i, j :: 0 <= i < n && 0 <= j < n ==>
      g.sqrtInf[i][j] == if i != j then 0.0 else if i < n / 2 then 1.0 / sigma1 else 1.0 / sigma2
    ensures g == FromVecSigma(SplitDiagonal(n, sigma1, sigma2))
  {
    var inf1 := 1.0 / sigma1;
    var inf2 := 1.0 / sigma2;
    var m := FillSplitDiagonal(n, inf1, inf2);
    g := GaussianNoise(n, m);
    assert Reciprocals(SplitDiagonal(n, sigma1, sigma2)) == SplitDiagonal(n, inf1, inf2);
  }

  /** `from_split_cov`: the same partition with `1 / sqrt(cov1)` and
      `1 / sqrt(cov2)`. */
  method FromSplitCov(n: nat, cov1: real, cov2: real, sqrt: real -> real) returns (g: GaussianNoise)
    requires sqrt(cov1) != 0.0 && sqrt(cov2) != 0.0
    ensures g.Valid() && g.n == n
    ensures forall i, j :: 0 <= i < n && 0 <= j < n ==>
      g.sqrtInf[i][j] == if i != j then 0.0 else if i < n / 2 then 1.0 / sqrt(cov1) else 1.0 / sqrt(cov2)
    ensures g == FromVecCov(SplitDiagonal(n, cov1, cov2), sqrt)
  {
    var inf1 := 1.0 / sqrt(cov1);
    var inf2 := 1.0 / sqrt(cov2);
    var m := FillSplitDiagonal(n, inf1, inf2);
    g := GaussianNoise(n, m);
    var d := SplitDiagonal(n, cov1, cov2);
    assert seq(|d|, i requires 0 <= i < |d| => 1.0 / sqrt(d[i])) == SplitDiagonal(n, inf1, inf2);
  }

  /** Every off-diagonal entry of the leading n×n block is zero. */
  predicate IsDiagonalBlock(n: nat, m: Matrix)
    requires CoversBlock(m, n)
  {
    forall i, j :: 0 <= i < n && 0 <= j < n && i != j ==> m[i][j] == 0.0
  }

  /** Every diagonal entry of the leading n×n block equals `m[0][0]`. */
  predicate IsIsotropicBlock(n: nat, m: Matrix)
    requires 1 <= n && CoversBlock(m, n)
  {
    forall i :: 0 <= i < n ==> m[i][i] == m[0][0]
  }

  /** `is_diagonal`: the double loop with an early exit. */
  method IsDiagonal(n: nat, m: Matrix) returns (b: bool)
    requires CoversBlock(m, n)
    ensures b <==> IsDiagonalBlock(n, m)
  {
    for i := 0 to n
      invariant forall r, c :: 0 <= r < i && 0 <= c < n && r != c ==> m[r][c] == 0.0
    {
      for j := 0 to n
        invariant forall r, c :: 0 <= r < i && 0 <= c < n && r != c ==> m[r][c] == 0.0
        invariant forall c :: 0 <= c < j && i != c ==> m[i][c] == 0.0
      {
        if i != j && m[i][j] != 0.0 {
          return false;
        }
      }
    }
    return true;
  }

  /** `is_isotropic`: compares slots `1 .. n` against `m[(0, 0)]`;
      off-diagonal entries are never read. */
  method IsIsotropic(n: nat, m: Matrix) returns (b: bool)
    requires 1 <= n && CoversBlock(m, n)
    ensures b <==> IsIsotropicBlock(n, m)
  {
    var val := m[0][0];
    for i := 1 to n
      invariant forall k :: 0 <= k < i ==> m[k][k] == val
    {
      if m[i][i] != val {
        return false;
      }
    }
    return true;
  }

  /** Which branch of the `Debug` implementation prints a noise model, with
      the values it prints (the decimal rendering is not modelled). */
  datatype DebugOut =
    | IsotropicStd(n: nat, value: real)         // `GaussianNoise{N}(std: v)`
    | DiagonalStd(n: nat, entries: seq<real>)   // `GaussianNoise{N}(std: [d0, d1, ...])`
    | PrettyMatrix(n: nat, rows: Matrix)        // `{:#?}`: one bracketed row per line
    | CompactMatrix(n: nat, matrix: Matrix)     // `{:?}`: the matrix's own debug form
    | DebugPanic                                // `m[(0, 0)]` of a 0×0 matrix

  /** `Debug::fmt` for `GaussianNoise<N>`, with the `#` flag as `alternate`. */
  function Debug(g: GaussianNoise, alternate: bool): (r: DebugOut)
    requires g.Valid()
    ensures g.n == 0 <==> r == DebugPanic
    ensures g.n > 0 ==>
      && (r.IsotropicStd? <==> IsDiagonalBlock(g.n, g.sqrtInf) && IsIsotropicBlock(g.n, g.sqrtInf))
      && (r.DiagonalStd? <==> IsDiagonalBlock(g.n, g.sqrtInf) && !IsIsotropicBlock(g.n, g.sqrtInf))
      && (r.PrettyMatrix? <==> !IsDiagonalBlock(g.n, g.sqrtInf) && alternate)
      && (r.CompactMatrix? <==> !IsDiagonalBlock(g.n, g.sqrtInf) && !alternate)
    ensures r.IsotropicStd? ==> r.n == g.n && r.value == g.sqrtInf[0][0]
    ensures r.DiagonalStd? ==>
      r.n == g.n && |r.entries| == g.n && forall i :: 0 <= i < g.n ==> r.entries[i] == g.sqrtInf[i][i]
    ensures r.PrettyMatrix? ==> r.n == g.n && r.rows == g.sqrtInf
    ensures r.CompactMatrix? ==> r.n == g.n && r.matrix == g.sqrtInf
  {
    if IsDiagonalBlock(g.n, g.sqrtInf) then
      if g.n == 0 then DebugPanic
      else if IsIsotropicBlock(g.n, g.sqrtInf) then IsotropicStd(g.n, g.sqrtInf[0][0])
      else DiagonalStd(g.n, Diagonal(g.sqrtInf, g.n))
    else if alternate then PrettyMatrix(g.n, g.sqrtInf)
    else CompactMatrix(g.n, g.sqrtInf)
  }

  /** A scalar sigma prints as one value, the square root information `1 / sigma`. */
  lemma DebugOfScalarSigma(n: nat, sigma: real, alternate: bool)
    requires n >= 1 && sigma != 0.0
    ensures Debug(FromScalarSigma(n, sigma), alternate) == IsotropicStd(n, 1.0 / sigma)
  {
  }

  /** A split with two different sigmas prints as the list of its diagonal. */
  lemma DebugOfSplitSigma(n: nat, sigma1: real, sigma2: real, alternate: bool)
    requires n >= 2 && sigma1 != 0.0 && sigma2 != 0.0 && sigma1 != sigma2
    ensures
      var g := FromVecSigma(SplitDiagonal(n, sigma1, sigma2));
      Debug(g, alternate) == DiagonalStd(n, Diagonal(g.sqrtInf, n))
  {
    var g := FromVecSigma(SplitDiagonal(n, sigma1, sigma2));
    assert g.sqrtInf[n - 1][n - 1] != g.sqrtInf[0][0] by {
      assert g.sqrtInf[0][0] * sigma1 == 1.0 && g.sqrtInf[n - 1][n - 1] * sigma2 == 1.0;
    }
  }

  /** A model built from a vector of sigmas is diagonal, so it never reaches
      the full-matrix branches. */
  lemma VecSigmaIsDiagonal(sigma: seq<real>, alternate: bool)
    requires NonZero(sigma) && |sigma| > 0
    ensures Debug(FromVecSigma(sigma), alternate).IsotropicStd?
         || Debug(FromVecSigma(sigma), alternate).DiagonalStd?
  {
  }

  /** Row-by-vector product, summed from the last entry down. */
  function Dot(row: seq<real>, v: seq<real>): real
    requires |row| == |v|
    decreases |v|
  {
    if |v| == 0 then 0.0
    else Dot(row[..|v| - 1], v[..|v| - 1]) + row[|v| - 1] * v[|v| - 1]
  }

  /** A row that is zero except at slot `k` picks out `row[k] * v[k]`. */
  lemma {:induction false} DotOfSingleEntry(row: seq<real>, v: seq<real>, k: nat)
    requires |row| == |v| && k < |v|
    requires forall j :: 0 <= j < |row| && j != k ==> row[j] == 0.0
    ensures Dot(row, v) == row[k] * v[k]
    decreases |v|
  {
    var last := |v| - 1;
    if k == last {
      DotOfZeroRow(row[..last], v[..last]);
    } else {
      DotOfSingleEntry(row[..last], v[..last], k);
    }
  }

  lemma {:induction false} DotOfZeroRow(row: seq<real>, v: seq<real>)
    requires |row| == |v|
    requires forall j :: 0 <= j < |row| ==> row[j] == 0.0
    ensures Dot(row, v) == 0.0
    decreases |v|
  {
    if |v| > 0 {
      DotOfZeroRow(row[..|v| - 1], v[..|v| - 1]);
    }
  }

  /** `whiten_vec`: `sqrt_inf * v`; nalgebra's `mul_to` panics unless `v`
      has N entries. */
  function WhitenVec(g: GaussianNoise, v: seq<real>): (r: Result<seq<real>, Panic>)
    requires g.Valid()
    ensures r.Ok? <==> |v| == g.n
    ensures r.Err? ==> r.error == DimensionMismatch
    ensures r.Ok? ==> |r.value| == |v| && forall i :: 0 <= i < |v| ==> r.value[i] == Dot(g.sqrtInf[i], v)
  {
    if |v| != g.n then Err(DimensionMismatch)
    else Ok(seq(g.n, i requires 0 <= i < g.n => Dot(g.sqrtInf[i], v)))
  }

  /** Whitening by a diagonal model scales each entry by its diagonal slot. */
  lemma WhitenDiagonal(g: GaussianNoise, v: seq<real>)
    requires g.Valid() && |v| == g.n && IsDiagonalBlock(g.n, g.sqrtInf)
    ensures WhitenVec(g, v).Ok?
    ensures forall i :: 0 <= i < g.n ==> WhitenVec(g, v).value[i] == g.sqrtInf[i][i] * v[i]
  {
    forall i | 0 <= i < g.n
      ensures Dot(g.sqrtInf[i], v) == g.sqrtInf[i][i] * v[i]
    {
      DotOfSingleEntry(g.sqrtInf[i], v, i);
    }
  }

  /** Whitening by a vector of sigmas divides entry `i` by `sigma[i]`. */
  lemma WhitenVecSigma(sigma: seq<real>, v: seq<real>)
    requires NonZero(sigma) && |v| == |sigma|
    ensures WhitenVec(FromVecSigma(sigma), v).Ok?
    ensures forall i :: 0 <= i < |v| ==> WhitenVec(FromVecSigma(sigma), v).value[i] == v[i] / sigma[i]
  {
    WhitenDiagonal(FromVecSigma(sigma), v);
  }

  /** Column `j` of a matrix with `cols` columns. */
  function Column(m: Matrix, j: nat, cols: nat): (c: seq<real>)
    requires j < cols && forall i :: 0 <= i < |m| ==> |m[i]| == cols
    ensures |c| == |m| && forall i :: 0 <= i < |m| ==> c[i] == m[i][j]
  {
    seq(|m|, i requires 0 <= i < |m| => m[i][j])
  }

  /** `whiten_mat`: `sqrt_inf * m`, which needs `m` to have N rows. */
  function WhitenMat(g: GaussianNoise, m: Matrix, cols: nat): (r: Result<Matrix, Panic>)
    requires g.Valid() && forall i :: 0 <= i < |m| ==> |m[i]| == cols
    ensures r.Ok? <==> |m| == g.n
    ensures r.Err? ==> r.error == DimensionMismatch
    ensures r.Ok? ==> |r.value| == g.n && forall i :: 0 <= i < g.n ==> |r.value[i]| == cols
  {
    if |m| != g.n then Err(DimensionMismatch)
    else Ok(seq(g.n, i requires 0 <= i < g.n =>
              seq(cols, j requires 0 <= j < cols => Dot(g.sqrtInf[i], Column(m, j, cols)))))
  }

  /** Whitening a matrix whitens each of its columns as a vector. */
  lemma WhitenMatByColumns(g: GaussianNoise, m: Matrix, cols: nat)
    requires g.Valid() && |m| == g.n && forall i :: 0 <= i < |m| ==> |m[i]| == cols
    ensures forall j :: 0 <= j < cols ==>
      WhitenVec(g, Column(m, j, cols)).Ok?
      && Column(WhitenMat(g, m, cols).value, j, cols) == WhitenVec(g, Column(m, j, cols)).value
  {
  }
}
