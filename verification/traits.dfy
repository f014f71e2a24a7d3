/** The provided methods of the `Variable` trait (src/variables/traits.rs),
    at the `Vector<N>` instance. The `left` cargo feature is the flag `left`:
    off, ⊕ and ⊖ act on the right; on, on the left. */
module VariableDefaults {
  import opened VectorGroup

  /** `dim`: the associated `DIM`, which for `Vector<N>` is N. */
  function Dim(x: Vector): (d: nat)
    ensures |Log(x)| == d
  {
    |x|
  }

  /** `identity_enum`: the identity of the variable's own group. */
  function IdentityEnum(x: Vector): (e: Vector)
    ensures |e| == |x| && Compose(x, e) == x && Compose(e, x) == x
  {
    IdentityLaw(x);
    Identity(|x|)
  }

  /** `oplus`: `x · exp(δ)`, or `exp(δ) · x` with `left`. */
  function Oplus(x: Vector, delta: seq<real>, left: bool): (r: Vector)
    requires |delta| >= |x|
    ensures |r| == |x| && forall i :: 0 <= i < |x| ==> r[i] == x[i] + delta[i]
  {
    if left then Compose(Exp(|x|, delta), x) else Compose(x, Exp(|x|, delta))
  }

  /** `minus`: `y⁻¹ · x`, or `x · y⁻¹` with `left`. */
  function Minus(x: Vector, y: Vector, left: bool): (r: Vector)
    requires |x| == |y|
    ensures |r| == |x| && forall i :: 0 <= i < |x| ==> r[i] == x[i] - y[i]
  {
    if left then Compose(x, Inverse(y)) else Compose(Inverse(y), x)
  }

  /** `ominus`: `log(minus(x, y))`. */
  function Ominus(x: Vector, y: Vector, left: bool): (r: seq<real>)
    requires |x| == |y|
    ensures |r| == |x| && forall i :: 0 <= i < |x| ==> r[i] == x[i] - y[i]
  {
    Log(Minus(x, y, left))
  }

  /** Stepping from `y` by `x ⊖ y` lands on `x`. */
  lemma OplusOminus(x: Vector, y: Vector, left: bool)
    requires |x| == |y|
    ensures Oplus(y, Ominus(x, y, left), left) == x
  {
  }

  /** Measuring a step of `δ` from `x` gives back `δ`. */
  lemma OminusOplus(x: Vector, delta: seq<real>, left: bool)
    requires |delta| == |x|
    ensures Ominus(Oplus(x, delta, left), x, left) == delta
  {
  }

  /** For vectors the `left` feature changes nothing. */
  lemma LeftRightAgree(x: Vector, y: Vector, delta: seq<real>)
    requires |x| == |y| && |delta| >= |x|
    ensures Oplus(x, delta, true) == Oplus(x, delta, false)
    ensures Minus(x, y, true) == Minus(x, y, false)
    ensures Ominus(x, y, true) == Ominus(x, y, false)
  {
  }
}
