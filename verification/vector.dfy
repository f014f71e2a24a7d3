/** `Vector<N>` as a variable (src/variables/vector.rs): the additive group
    of N-vectors, whose exponential and logarithm are plain copies. Over the
    reals every law the variables module asks of a Lie group holds exactly. */
module VectorGroup {

  type Vector = seq<real>

  /** `identity`: the zero vector. */
  function Identity(n: nat): (r: Vector)
    ensures |r| == n && forall i :: 0 <= i < n ==> r[i] == 0.0
  {
    seq(n, _ => 0.0)
  }

  /** `inverse`: negation. */
  function Inverse(x: Vector): (r: Vector)
    ensures |r| == |x| && forall i :: 0 <= i < |x| ==> r[i] == -x[i]
  {
    seq(|x|, i requires 0 <= i < |x| => -x[i])
  }

  /** `compose`: element-wise sum of two vectors of the same size. */
  function Compose(x: Vector, y: Vector): (r: Vector)
    requires |x| == |y|
    ensures |r| == |x| && forall i :: 0 <= i < |x| ==> r[i] == x[i] + y[i]
  {
    seq(|x|, i requires 0 <= i < |x| => x[i] + y[i])
  }

  /** `exp`: the first N entries of the tangent vector; nalgebra's
      `from_iterator` panics when there are fewer. */
  function Exp(n: nat, delta: seq<real>): (r: Vector)
    requires |delta| >= n
    ensures |r| == n && forall i :: 0 <= i < n ==> r[i] == delta[i]
  {
    delta[..n]
  }

  /** `log`: the vector as a tangent vector of length `DIM == N`. */
  function Log(x: Vector): (r: seq<real>)
    ensures |r| == |x| && forall i :: 0 <= i < |x| ==> r[i] == x[i]
  {
    x
  }

  lemma IdentityLaw(x: Vector)
    ensures Compose(x, Identity(|x|)) == x == Compose(Identity(|x|), x)
  {
  }

  lemma InverseLaw(x: Vector)
    ensures Compose(x, Inverse(x)) == Identity(|x|) == Compose(Inverse(x), x)
  {
  }

  lemma Associativity(x: Vector, y: Vector, z: Vector)
    requires |x| == |y| == |z|
    ensures Compose(Compose(x, y), z) == Compose(x, Compose(y, z))
  {
  }

  /** The group is commutative, which is why left and right forms agree. */
  lemma Commutativity(x: Vector, y: Vector)
    requires |x| == |y|
    ensures Compose(x, y) == Compose(y, x)
  {
  }

  lemma LogExp(delta: seq<real>)
    ensures Log(Exp(|delta|, delta)) == delta
  {
  }

  lemma ExpLog(x: Vector)
    ensures Exp(|x|, Log(x)) == x
  {
  }
}
