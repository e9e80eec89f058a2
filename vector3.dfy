/** Three-dimensional vectors over exact reals: the leaf layer of the transform algebra. */
module Vectors {

  /** A 3-tuple (x, y, z); equality is componentwise. */
  datatype Vector3 = Vector3(x: real, y: real, z: real)

  /** The default-constructed vector. */
  const Zero: Vector3 := Vector3(0.0, 0.0, 0.0)

  /** Componentwise sum (`a + b`). */
  function Add(a: Vector3, b: Vector3): Vector3 {
    Vector3(a.x + b.x, a.y + b.y, a.z + b.z)
  }

  /** Componentwise difference (`a - b`). */
  function Sub(a: Vector3, b: Vector3): Vector3 {
    Vector3(a.x - b.x, a.y - b.y, a.z - b.z)
  }

  /** Dot product (the binary `*` of two vectors), a scalar. */
  function Dot(a: Vector3, b: Vector3): real {
    a.x * b.x + a.y * b.y + a.z * b.z
  }

  /** Negation (unary `-`). */
  function Neg(a: Vector3): Vector3 {
    Vector3(-a.x, -a.y, -a.z)
  }

  /** Scalar multiple; used by the specifications only. */
  function Scale(k: real, a: Vector3): Vector3 {
    Vector3(k * a.x, k * a.y, k * a.z)
  }

  /** Cross product; used by the specifications only (reference form of the Hamilton product). */
  function Cross(a: Vector3, b: Vector3): Vector3 {
    Vector3(a.y * b.z - a.z * b.y, a.z * b.x - a.x * b.z, a.x * b.y - a.y * b.x)
  }

  lemma NegInvolution(a: Vector3)
    ensures Neg(Neg(a)) == a
    ensures Add(a, Neg(a)) == Zero
  {}

  lemma AddSubCancel(a: Vector3, b: Vector3)
    ensures Sub(Add(a, b), b) == a
    ensures Add(Sub(a, b), b) == a
    ensures Sub(a, b) == Add(a, Neg(b))
  {}

  lemma AddCommutativeAssociative(a: Vector3, b: Vector3, c: Vector3)
    ensures Add(a, b) == Add(b, a)
    ensures Add(Add(a, b), c) == Add(a, Add(b, c))
    ensures Add(a, Zero) == a && Add(Zero, a) == a
  {}

  lemma DotSymmetric(a: Vector3, b: Vector3)
    ensures Dot(a, b) == Dot(b, a)
  {}

  /** The dot product is linear in its first argument (and, by symmetry, in its second). */
  lemma DotLinear(a: Vector3, b: Vector3, c: Vector3, k: real)
    ensures Dot(Add(a, b), c) == Dot(a, c) + Dot(b, c)
    ensures Dot(Scale(k, a), c) == k * Dot(a, c)
    ensures Dot(Neg(a), c) == -Dot(a, c)
  {}

  /** The concrete cases of the vector layer. */
  lemma VectorExamples()
    ensures Vector3(0.0, 0.0, 0.0) == Zero
    ensures Add(Vector3(1.0, 2.0, 3.0), Vector3(4.0, 5.0, 6.0)) == Vector3(5.0, 7.0, 9.0)
    ensures Sub(Vector3(1.0, 2.0, 3.0), Vector3(2.0, 2.0, 1.0)) == Vector3(-1.0, 0.0, 2.0)
    ensures Dot(Vector3(1.0, 2.0, 3.0), Vector3(2.0, -2.0, 1.0)) == 1.0
    ensures Neg(Vector3(1.0, 2.0, -3.0)) == Vector3(-1.0, -2.0, 3.0)
  {}
}
