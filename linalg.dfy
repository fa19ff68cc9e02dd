/** The numpy vector operations the geometry is written with (`np.dot`,
    `np.cross`, scalar products and sums), on 3-vectors held as `seq<real>`. */
module LinearAlgebra {

  type Vector = seq<real>

  predicate Is3(v: Vector)
  {
    |v| == 3
  }

  function Dot(a: Vector, b: Vector): real
    requires Is3(a) && Is3(b)
  {
    a[0] * b[0] + a[1] * b[1] + a[2] * b[2]
  }

  /** `np.cross`; the result is orthogonal to both arguments. */
  function Cross(a: Vector, b: Vector): (r: Vector)
    requires Is3(a) && Is3(b)
    ensures Is3(r)
    ensures Dot(r, a) == 0.0 && Dot(r, b) == 0.0
  {
    [a[1] * b[2] - a[2] * b[1],
     a[2] * b[0] - a[0] * b[2],
     a[0] * b[1] - a[1] * b[0]]
  }

  function Scale(c: real, v: Vector): (r: Vector)
    requires Is3(v)
    ensures Is3(r)
  {
    [c * v[0], c * v[1], c * v[2]]
  }

  function Add(a: Vector, b: Vector): (r: Vector)
    requires Is3(a) && Is3(b)
    ensures Is3(r)
  {
    [a[0] + b[0], a[1] + b[1], a[2] + b[2]]
  }

  function Neg(v: Vector): (r: Vector)
    requires Is3(v)
    ensures Is3(r)
  {
    [-v[0], -v[1], -v[2]]
  }

  const Origin: Vector := [0.0, 0.0, 0.0]

  /** The scalar triple product may be read with its factors rotated:
      a . (b x c) == c . (a x b). */
  lemma TripleProductRotate(a: Vector, b: Vector, c: Vector)
    requires Is3(a) && Is3(b) && Is3(c)
    ensures Dot(a, Cross(b, c)) == Dot(c, Cross(a, b))
  {
  }

  lemma DotLinear(a: Vector, p: Vector, s: real, v: Vector)
    requires Is3(a) && Is3(p) && Is3(v)
    ensures Dot(a, Add(p, Scale(s, v))) == Dot(a, p) + s * Dot(a, v)
  {
  }

  lemma DotNeg(a: Vector, p: Vector)
    requires Is3(a) && Is3(p)
    ensures Dot(a, Neg(p)) == -Dot(a, p)
  {
  }

  lemma NegScale(s: real, v: Vector)
    requires Is3(v)
    ensures Neg(Scale(-s, v)) == Scale(s, v)
  {
  }
}
