# factrs: procedural macros, diagonal Gaussian noise and the vector group

This project models three pieces of the factrs factor-graph library in Dafny.

1. The `fac!` procedural macro (`FacMacro`). It takes two to four expressions:
   a residual, the keys, an optional noise model and an optional robust kernel.
   It checks the argument count and classifies the keys argument. It decodes
   noise casts such as `0.1 as std` or `(0.1, 0.2) as cov` into `GaussianNoise`
   constructor calls. It then emits `FactorBuilder::new{k}(res, keys…)`,
   followed by `.robust(…)` and `.noise(…)` when present, and `.build()`.
2. The tagging attributes of the same crate. `ProcTag` covers `check_type` and
   the dispatch in `tag`: they classify an `impl` block by substrings of its
   trait's last path segment. `VariableMark` covers `type_name`, `mark` and
   `tag_all`: they compute the names under which a variable, its prior residual
   and its between residual are registered for serialisation.
3. The numeric side. `Gaussian` models the diagonal constructors of
   `GaussianNoise<N>`, the diagonal and isotropy tests, which `Debug` branch is
   chosen, and whitening. `VectorGroup` models `Vector<N>` as a variable.
   `VariableDefaults` models the provided methods of the `Variable` trait (`dim`,
   `identity_enum`, ⊕, `minus`, ⊖) at that vector instance.

Modelling choices:

- Syntax trees (`Syntax`) keep only the distinctions the macros make. Token
  streams become small datatypes: `Emitted` and `MethodCall` for `fac!`, and
  `Token` for `mark`. Only the names and the order of the expansion are
  modelled, not the spans.
- The crate-level cargo features are boolean parameters: `serde` for `Mark`
  and `left` for ⊕ and ⊖.
- Macro panics are results, not preconditions. Examples: indexing `input[0]`
  of an empty `fac!()`, and `type_name(..).unwrap()` on a self type that has no
  name. They appear as `Panicked(IndexOutOfBounds)` and `Err(UnwrapOnNone)`.
  The shape assertion inside nalgebra's `mul_to` appears as
  `Err(DimensionMismatch)`.
- `dtype` is `real`, and matrices are sequences of rows. This is an
  idealisation: the statements are about which slot receives which value,
  and they do not describe floating-point rounding. A square root is passed in
  as a function `sqrt: real -> real`, because only where it is applied matters.
- `Debug` for `GaussianNoise<N>` returns the chosen branch and the values it
  prints. For N = 0 the source reads `m[(0, 0)]` of a 0×0 matrix inside
  `is_isotropic`, so that case is `DebugPanic`. The isotropic branch is
  labelled `std`, but it prints the square root information entry `1 / sigma`,
  not sigma. `DebugOfScalarSigma` states this.
- `fac` binds the robust call to a local named `noise` and the noise call to
  one named `robust`. As a result `.robust(…)` comes before `.noise(…)` in the
  expansion, and `Fac` states that order.
- The crate's `lib.rs` dispatches `Variable` impls to `variable::tag`. The
  `variable.rs` shown defines `mark` instead, and the two are not reconciled
  here. `ProcTag.Tag` only records which module's `tag` receives the item.

## Model

| member | source | states |
|---|---|---|
| `Util.Contains` | factrs-proc/src/lib.rs:32 | `str::contains`: true exactly when the pattern occurs at some index of the name |
| `Util.ContainsFrom` | factrs-proc/src/lib.rs:32-40 | the left-to-right search finds a match at or after `start` exactly when one exists |
| `Util.NatToDecimal` | factrs-proc/src/fac.rs:31 | `format!("{}", k)` yields a non-empty string of decimal digits with no leading zero, and `"0"` only for 0 |
| `Util.DecimalRoundTrip` | factrs-proc/src/fac.rs:31 | reading the rendered key count back as a decimal gives the count |
| `Util.DecimalInjective` | factrs-proc/src/fac.rs:31 | different key counts never render to the same digits |
| `FacMacro.CastFamily` | factrs-proc/src/fac.rs:84-88 | `cov` selects the cov family; `std`, `sigma` and `sig` select the sigma family; any other cast type selects nothing |
| `FacMacro.KeysOf` | factrs-proc/src/fac.rs:59-76 | arrays and tuples yield their elements, a path or call yields a one-element list, and every other shape yields no keys |
| `FacMacro.NoiseOf` | factrs-proc/src/fac.rs:79-111 | `_` becomes `UnitNoise`, and a non-cast passes through unchanged. An unknown cast type fails before the tuple shape is looked at. A 2-tuple cast becomes `from_split_{family}(a, b)`, a tuple of any other length fails, and any other cast becomes `from_scalar_{family}(e)` |
| `FacMacro.Parse` | factrs-proc/src/fac.rs:39-129 | 0 arguments panic, 1 argument gives "Expected at least two items", and more than 4 give "Expected at most four items". The keys error comes before any noise error. On success: the residual is the first argument unchanged, noise is present exactly when there are at least 3 arguments, and robust is present exactly when there are 4 |
| `FacMacro.ParseUnparse` | factrs-proc/src/fac.rs:39-129 | every factor whose noise is a plain expression, and that has a kernel only when it has noise, is parsed back from its own argument list `res, [keys…], noise, kernel` unchanged |
| `FacMacro.NoiseCall` | factrs-proc/src/fac.rs:16-21 | one `.noise(n)` call when noise is present, none otherwise |
| `FacMacro.RobustCall` | factrs-proc/src/fac.rs:23-28 | one `.robust(r)` call when a robust kernel is present, none otherwise |
| `FacMacro.NewName` | factrs-proc/src/fac.rs:31 | the constructor is exactly `new` followed by the decimal key count: digits without a leading zero that read back as the count |
| `FacMacro.Fac` | factrs-proc/src/fac.rs:132-141 | the expansion calls `FactorBuilder::new{|keys|}(residual, keys…)` and ends in `.build()`. The robust call comes first and the noise call directly before `.build()`; the chain holds exactly those calls |
| `FacMacro.FacRoundTrip` | factrs-proc/src/fac.rs:30-35 | the expansion loses nothing: residual, keys, noise and robust kernel can all be read back from it |
| `FacMacro.FacArity` | factrs-proc/src/fac.rs:31 | two factors with the same constructor name have the same number of keys |
| `FacMacro.UnaryFactor` | factrs-proc/src/fac.rs:65-69 | `fac!(res, key)` with a path or call key parses to one key, no noise and no kernel, and expands to `new1(res, key).build()` |
| `FacMacro.FullFactor` | factrs-proc/src/fac.rs:91-101 | `fac!(res, [ks…], (a, b) as std, kernel)` expands to `.robust(kernel).noise(GaussianNoise::from_split_sigma(a, b)).build()` |
| `ProcTag.TraitName` | factrs-proc/src/lib.rs:20-30 | the name is defined exactly when the impl has a trait whose path has a segment, and it is the last segment |
| `ProcTag.Classify` | factrs-proc/src/lib.rs:32-42 | a name containing "Residual" is a residual. Otherwise a name containing "Variable" is a variable, then "Noise" is noise, then "Robust" is robust. A name containing none of them is not classified |
| `ProcTag.CheckType` | factrs-proc/src/lib.rs:19-43 | no trait or an empty trait path gives "Missing trait", an unclassified name gives "Not a valid trait", and any other name gives its kind |
| `ProcTag.Tag` | factrs-proc/src/lib.rs:45-64 | a classification error becomes a compile error carrying exactly the message `check_type` produced; otherwise the unchanged item goes to the `tag` of exactly its kind |
| `ProcTag.OnlyLastSegmentMatters` | factrs-proc/src/lib.rs:26-30 | two impls whose trait paths end in the same segment classify identically, whatever their prefixes, self types and generics |
| `ProcTag.ResidualBeatsNoise` | factrs-proc/src/lib.rs:32-36 | a name containing both "Residual" and "Noise" is a residual |
| `ProcTag.ClassifyRobust` | factrs-proc/src/lib.rs:38-39 | `RobustCost` is a robust kernel |
| `ProcTag.ClassifyClone` | factrs-proc/src/lib.rs:40-42 | `Clone` is refused |
| `VariableMark.StripGroups` | factrs-proc/src/variable.rs:11-13 | the result is never a group |
| `VariableMark.TypeName` | factrs-proc/src/variable.rs:5-17 | the name depends only on the type with all groups removed. It is the last segment of an unqualified path, `None` for a qualified path or any other type, and a panic for an empty path |
| `VariableMark.GroupsAreTransparent` | factrs-proc/src/variable.rs:6-13 | any number of group wrappers leaves the type name unchanged |
| `VariableMark.TagAll` | factrs-proc/src/variable.rs:61-101 | three registrations, all for the same type: the name itself in the variable registry, then `PriorResidual<name>` and `BetweenResidual<name>` in the residual registry. The three names are pairwise different |
| `VariableMark.RegisteredNamesOfTagAll` | factrs-proc/src/variable.rs:61-63 | the registered names are exactly `name`, `PriorResidual<name>`, `BetweenResidual<name>`, in that order |
| `VariableMark.Mark` | factrs-proc/src/variable.rs:19-59 | without serde the item comes back unchanged. With serde: a self type without a name panics; zero generics give only the "variable should have dtype generic" error, dropping the item; one generic gives the item, then the three `tag_all` registrations with their registries, wrappers and deserialised type, then a `Tagged` impl whose tag is the type name; two or more give only the item |
| `VariableMark.IdentIsNotBracketed` | factrs-proc/src/variable.rs:62-63 | an identifier is never one of the bracketed residual names |
| `VariableMark.WrappedNamesInjective` | factrs-proc/src/variable.rs:62-63 | the prior and between names determine the variable name, and a prior name never equals a between name |
| `VariableMark.DistinctVariablesDoNotCollide` | factrs-proc/src/variable.rs:61-99 | two differently named variables register disjoint sets of names |
| `VariableMark.MarkSimpleVariable` | factrs-proc/src/variable.rs:43-53 | `impl Variable for T<D>` expands to the item, the registrations of `T`, `PriorResidual<T>` and `BetweenResidual<T>`, and `Tagged` with tag `T` |
| `VariableMark.MarkReferencePanics` | factrs-proc/src/variable.rs:29 | a self type that is not a path panics before the generic count is looked at |
| `Gaussian.FromDiagonal` | src/noise/gaussian.rs:92 | `from_diagonal`: a square matrix with `d[i]` at `(i, i)` and zeros off the diagonal |
| `Gaussian.FromScalarSigma` | src/noise/gaussian.rs:43-46 | N×N, `1 / sigma` on every diagonal slot, zeros elsewhere |
| `Gaussian.FromScalarCov` | src/noise/gaussian.rs:49-52 | N×N, `1 / sqrt(cov)` on every diagonal slot, zeros elsewhere |
| `Gaussian.SplitDiagonal` | src/noise/gaussian.rs:54-68 | slot `i` holds the first value when `i < N / 2` and the second otherwise |
| `Gaussian.FillSplitDiagonal` | src/noise/gaussian.rs:60-68 | the two loops over a zero matrix produce the diagonal matrix of the split diagonal |
| `Gaussian.FromSplitSigma` | src/noise/gaussian.rs:59-70 | slots `i < N / 2` hold `1 / sigma1`, slots `N / 2 ≤ i < N` hold `1 / sigma2`, and off-diagonal entries are 0. It equals `from_vec_sigma` of the split diagonal, so for odd N the first group is one shorter |
| `Gaussian.FromSplitCov` | src/noise/gaussian.rs:77-88 | the same partition with `1 / sqrt(cov1)` and `1 / sqrt(cov2)`; it equals `from_vec_cov` of the split diagonal |
| `Gaussian.FromVecSigma` | src/noise/gaussian.rs:91-94 | diagonal with slot `i` holding `1 / sigma[i]` |
| `Gaussian.FromVecCov` | src/noise/gaussian.rs:97-100 | diagonal with slot `i` holding `1 / sqrt(cov[i])` |
| `Gaussian.FromVecInf` | src/noise/gaussian.rs:103-106 | diagonal with slot `i` holding `sqrt(inf[i])` |
| `Gaussian.FromDiagSigmas` | src/noise/gaussian.rs:215-218 | for one to six sigmas, diagonal with each slot the reciprocal of its sigma |
| `Gaussian.FromDiagCovs` | src/noise/gaussian.rs:221-224 | for one to six covariances, diagonal with each slot the reciprocal of the square root of its covariance |
| `Gaussian.IsDiagonal` | src/noise/gaussian.rs:131-140 | true exactly when every off-diagonal entry of the leading n×n block is 0 |
| `Gaussian.IsIsotropic` | src/noise/gaussian.rs:142-150 | true exactly when every diagonal entry equals `m[(0, 0)]`; off-diagonal entries do not matter |
| `Gaussian.Debug` | src/noise/gaussian.rs:152-208 | N = 0 panics. Diagonal and isotropic prints one `std` value, the entry `(0, 0)`. Diagonal and not isotropic prints the N diagonal entries. Otherwise `{:#?}` prints the rows and `{:?}` the matrix; each branch is taken exactly under its condition |
| `Gaussian.DebugOfScalarSigma` | src/noise/gaussian.rs:158-167 | a scalar-sigma model prints one `std` value, which is `1 / sigma` |
| `Gaussian.DebugOfSplitSigma` | src/noise/gaussian.rs:168-177 | a split of two different sigmas (N ≥ 2) prints its diagonal as a list |
| `Gaussian.VecSigmaIsDiagonal` | src/noise/gaussian.rs:156-177 | a vector-sigma model always takes one of the single-line diagonal branches |
| `Gaussian.WhitenVec` | src/noise/gaussian.rs:23-27 | fails exactly when `v` does not have N entries; otherwise the result has the length of `v` and entry `i` is row `i` of the square root information times `v` |
| `Gaussian.WhitenDiagonal` | src/noise/gaussian.rs:23-27 | with a diagonal model, entry `i` is scaled by diagonal slot `i` |
| `Gaussian.WhitenVecSigma` | src/noise/gaussian.rs:23-27 | whitening by `from_vec_sigma(sigma)` divides entry `i` by `sigma[i]` |
| `Gaussian.WhitenMat` | src/noise/gaussian.rs:29-33 | fails exactly when the matrix does not have N rows; otherwise the result is N rows of the same width |
| `Gaussian.WhitenMatByColumns` | src/noise/gaussian.rs:29-33 | each column of a whitened matrix is that column whitened as a vector |
| `VectorGroup.Identity` | src/variables/vector.rs:9-11 | the zero vector of length N |
| `VectorGroup.Inverse` | src/variables/vector.rs:13-15 | entry-wise negation, the same length as the vector |
| `VectorGroup.Compose` | src/variables/vector.rs:17-19 | entry-wise addition of vectors of the same size |
| `VectorGroup.Exp` | src/variables/vector.rs:21-23 | the first N entries of the tangent vector |
| `VectorGroup.Log` | src/variables/vector.rs:25-27 | a tangent vector of length `DIM == N` with the same entries |
| `VectorGroup.IdentityLaw` | src/variables/mod.rs:11 | `x · I = x = I · x` |
| `VectorGroup.InverseLaw` | src/variables/mod.rs:12 | `x · x⁻¹ = I = x⁻¹ · x` |
| `VectorGroup.Associativity` | src/variables/mod.rs:14 | `(x · y) · z = x · (y · z)` |
| `VectorGroup.Commutativity` | src/variables/vector.rs:17-19 | `x · y = y · x` |
| `VectorGroup.LogExp` | src/variables/vector.rs:21-27 | `log(exp(d)) = d` for `|d| = N` |
| `VectorGroup.ExpLog` | src/variables/vector.rs:21-27 | `exp(log(x)) = x` |
| `VariableDefaults.Dim` | src/variables/traits.rs:21-23 | `dim()` is the length of the tangent vector `log` returns, which is `DIM` |
| `VariableDefaults.IdentityEnum` | src/variables/traits.rs:24-26 | `identity_enum()` is an identity for the variable on both sides |
| `VariableDefaults.Oplus` | src/variables/traits.rs:29-35 | in both forms, `x ⊕ δ` adds the first N entries of `δ` to `x` |
| `VariableDefaults.Minus` | src/variables/traits.rs:36-42 | in both forms, `minus(x, y)` is the entry-wise difference `x − y` |
| `VariableDefaults.Ominus` | src/variables/traits.rs:43-45 | `x ⊖ y` is the entry-wise difference, as a tangent vector of length N |
| `VariableDefaults.OplusOminus` | src/variables/mod.rs:23-24 | `y ⊕ (x ⊖ y) = x` in both forms |
| `VariableDefaults.OminusOplus` | src/variables/mod.rs:23-24 | `(x ⊕ δ) ⊖ x = δ` for `|δ| = N`, in both forms |
| `VariableDefaults.LeftRightAgree` | src/variables/traits.rs:29-42 | for vectors, the `left` feature changes neither ⊕, `minus` nor ⊖ |

## Left out

- Gaussian.FromScalarSigma: requires `sigma ≠ 0`. In floating point, `1 / 0` gives an infinity, which reals do not have.
- Gaussian.FromScalarCov: requires `sqrt(cov) ≠ 0`, for the same reason.
- Gaussian.FromVecSigma: requires every sigma to be non-zero, for the same reason.
- Gaussian.FromVecCov: requires every `sqrt(cov[i])` to be non-zero, for the same reason.
- Gaussian.FromSplitSigma: requires both sigmas to be non-zero, for the same reason.
- Gaussian.FromSplitCov: requires both square roots to be non-zero, for the same reason.
- Gaussian.FromDiagSigmas: requires non-zero sigmas, for the same reason.
- Gaussian.FromDiagCovs: requires non-zero square roots, for the same reason.
- Gaussian.IsIsotropic: requires `n ≥ 1` and an n×n block, because the source indexes `m[(0, 0)]` and `m[(i, i)]`. `Debug` models the N = 0 panic separately.
- Gaussian.IsDiagonal: requires an n×n block, because the source indexes it.
- VectorGroup.Exp: requires at least N tangent entries. nalgebra's `from_iterator` panics on fewer entries, and that panic is a precondition here.
- VariableDefaults.Oplus: requires at least N entries in `δ`, inherited from `VectorGroup.Exp`; the `from_iterator` panic on a short `δ` is not modelled here either.
- `from_matrix_cov` and `from_matrix_inf`: they need matrix inversion and a Cholesky factorisation from nalgebra.
- `GaussianNoise::identity`: it only returns the `UnitNoise` marker.
- The `Display` implementation and the decimal text of `Debug`: number formatting at a given precision is not modelled. Only the chosen branch and its values are.
- `dual_self`, `dual_tangent` and `dual`: these are dual-number automatic differentiation over num_dual.
- SO3 and SE3: floating-point Lie-group numerics built on trigonometry and small-angle thresholds.
- The tokenizer. `Parse` starts from the comma-separated expression list, so syntax errors inside `parse_terminated` and error spans are not modelled.
- The `residual`, `noise` and `robust` tagging modules: they are not part of this model. `Tag` only records which one receives the item.
- The typetag/inventory registration. `Mark` records the registered names and deserialised types, not the registry.
- The benchmark drivers and example programs: they measure wall-clock time, read g2o files and call external solvers.
