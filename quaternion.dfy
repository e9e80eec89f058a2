/**
  Quaternions over exact reals: a scalar part `w` and a vector part `v`.
  A quaternion of squared norm 1 represents a rotation; nothing here enforces that,
  so every rotation property below takes it as a precondition.
*/
module Quaternions {
  import opened Vectors

  datatype Quaternion = Quaternion(w: real, v: Vector3)

  /** The default-constructed quaternion (1, 0): the identity rotation. */
  const Identity: Quaternion := Quaternion(1.0, Zero)

  /** The four-component constructor (w, x, y, z). */
  function FromComponents(w: real, x: real, y: real, z: real): Quaternion {
    Quaternion(w, Vector3(x, y, z))
  }

  /**
    The axis-angle constructor. The half-angle cosine `c` and sine `s` are taken as
    parameters in place of the trigonometric calls; the axis is used as given.
  */
  function FromAxisAngle(axis: Vector3, c: real, s: real): Quaternion {
    Quaternion(c, Vector3(s * axis.x, s * axis.y, s * axis.z))
  }

  /** The squared norm `w*w + v*v`; the norm itself is its square root. */
  function Norm2(q: Quaternion): (r: real)
    ensures r >= 0.0
  {
    q.w * q.w + Dot(q.v, q.v)
  }

  /** A quaternion that represents a rotation. */
  predicate IsUnit(q: Quaternion) {
    Norm2(q) == 1.0
  }

  /** The conjugate (`~q`). */
  function Conjugate(q: Quaternion): Quaternion {
    Quaternion(q.w, Neg(q.v))
  }

  /** The Hamilton product (`a * b` of two quaternions); the result first applies `b`, then `a`. */
  function Mul(a: Quaternion, b: Quaternion): Quaternion {
    Quaternion(
      -a.v.x * b.v.x - a.v.y * b.v.y - a.v.z * b.v.z + a.w * b.w,
      Vector3(
         a.v.x * b.w + a.v.y * b.v.z - a.v.z * b.v.y + a.w * b.v.x,
        -a.v.x * b.v.z + a.v.y * b.w + a.v.z * b.v.x + a.w * b.v.y,
         a.v.x * b.v.y - a.v.y * b.v.x + a.v.z * b.w + a.w * b.v.z))
  }

  /**
    Rotation of a vector (`q * v`): the vector part of the sandwich `q * (0, v) * ~q`. The local
    `p` and the product grouping follow the source; `Pure` and `Sandwich` below name the same two
    pieces for the specifications, and `RotateIsSandwich` relates them.
  */
  function Rotate(q: Quaternion, v: Vector3): Vector3 {
    var p := Quaternion(0.0, v);
    Mul(Mul(q, p), Conjugate(q)).v
  }

  // ---------------------------------------------------------------------------------------------
  // Specification helpers: not operations of the library, used to state its properties.

  /** The pure quaternion (0, v) that embeds a vector: `Rotate`'s local `p`. */
  function Pure(v: Vector3): Quaternion {
    Quaternion(0.0, v)
  }

  /** The conjugation sandwich `q * x * ~q`, as `Rotate` computes it, for any filling `x`. */
  function Sandwich(q: Quaternion, x: Quaternion): Quaternion {
    Mul(Mul(q, x), Conjugate(q))
  }

  /** Componentwise sum and scalar multiple of quaternions. */
  function QAdd(a: Quaternion, b: Quaternion): Quaternion {
    Quaternion(a.w + b.w, Add(a.v, b.v))
  }

  function QScale(k: real, a: Quaternion): Quaternion {
    Quaternion(k * a.w, Scale(k, a.v))
  }

  /**
    `p0..p3` are the components (scalar first) of the Hamilton product of `a0..a3` and `b0..b3`:
    the body of `Mul` on plain reals, kept only as a proof device for the component-wise lemmas.
  */
  predicate IsProduct(a0: real, a1: real, a2: real, a3: real, b0: real, b1: real, b2: real, b3: real,
                      p0: real, p1: real, p2: real, p3: real) {
    && p0 == -a1 * b1 - a2 * b2 - a3 * b3 + a0 * b0
    && p1 == a1 * b0 + a2 * b3 - a3 * b2 + a0 * b1
    && p2 == -a1 * b3 + a2 * b0 + a3 * b1 + a0 * b2
    && p3 == a1 * b2 - a2 * b1 + a3 * b0 + a0 * b3
  }

  // ---------------------------------------------------------------------------------------------
  // Conjugate

  lemma ConjugateInvolution(q: Quaternion)
    ensures Conjugate(q).w == q.w && Conjugate(q).v == Neg(q.v)
    ensures Conjugate(Conjugate(q)) == q
    ensures Norm2(Conjugate(q)) == Norm2(q)
  {}

  /** The conjugate of (1, (2, 3, 4)) is (1, (-2, -3, -4)). */
  lemma ConjugateExample()
    ensures Conjugate(FromComponents(1.0, 2.0, 3.0, 4.0)) == FromComponents(1.0, -2.0, -3.0, -4.0)
  {}

  /** The identity rotation is its own conjugate. */
  lemma ConjugateIdentity()
    ensures Conjugate(Identity) == Identity
  {}

  // ---------------------------------------------------------------------------------------------
  // Hamilton product

  /** The product in scalar/vector form: (a.w b.w - a.v.b.v, a.w b.v + b.w a.v + a.v x b.v). */
  lemma MulReferenceForm(a: Quaternion, b: Quaternion)
    ensures Mul(a, b) == Quaternion(a.w * b.w - Dot(a.v, b.v),
                                    Add(Add(Scale(a.w, b.v), Scale(b.w, a.v)), Cross(a.v, b.v)))
  {}

  /** The components of the product are those of the plain-real Hamilton product. */
  lemma MulIsProduct(a: Quaternion, b: Quaternion)
    ensures IsProduct(a.w, a.v.x, a.v.y, a.v.z, b.w, b.v.x, b.v.y, b.v.z,
                      Mul(a, b).w, Mul(a, b).v.x, Mul(a, b).v.y, Mul(a, b).v.z)
  {}

  /** The default quaternion is a two-sided identity. */
  lemma MulIdentityLeft(q: Quaternion)
    ensures Mul(Identity, q) == q
  {}

  lemma MulIdentityRight(q: Quaternion)
    ensures Mul(q, Identity) == q
  {}

  /** The product does not commute: i j = k but j i = -k. */
  lemma MulNotCommutative()
    ensures Mul(FromComponents(0.0, 1.0, 0.0, 0.0), FromComponents(0.0, 0.0, 1.0, 0.0)) == FromComponents(0.0, 0.0, 0.0, 1.0)
    ensures Mul(FromComponents(0.0, 0.0, 1.0, 0.0), FromComponents(0.0, 1.0, 0.0, 0.0)) == FromComponents(0.0, 0.0, 0.0, -1.0)
  {
    var i, j := Quaternion(0.0, Vector3(1.0, 0.0, 0.0)), Quaternion(0.0, Vector3(0.0, 1.0, 0.0));
    assert Mul(i, j) == Quaternion(0.0, Vector3(0.0, 0.0, 1.0));
    assert Mul(j, i) == Quaternion(0.0, Vector3(0.0, 0.0, -1.0));
  }

  /** The product distributes over the sum, on the left and on the right. */
  lemma MulAddLeft(a: Quaternion, b: Quaternion, c: Quaternion)
    ensures Mul(QAdd(a, b), c) == QAdd(Mul(a, c), Mul(b, c))
  {
    MulAddLeftW(a, b, c);
    MulAddLeftX(a, b, c);
    MulAddLeftY(a, b, c);
    MulAddLeftZ(a, b, c);
  }

  lemma MulAddRight(a: Quaternion, b: Quaternion, c: Quaternion)
    ensures Mul(c, QAdd(a, b)) == QAdd(Mul(c, a), Mul(c, b))
  {
    MulAddRightW(a, b, c);
    MulAddRightX(a, b, c);
    MulAddRightY(a, b, c);
    MulAddRightZ(a, b, c);
  }

  /** A scalar factor moves out of either argument of the product. */
  lemma MulScaleLeft(k: real, a: Quaternion, c: Quaternion)
    ensures Mul(QScale(k, a), c) == QScale(k, Mul(a, c))
  {
    MulScaleLeftW(k, a, c);
    MulScaleLeftX(k, a, c);
    MulScaleLeftY(k, a, c);
    MulScaleLeftZ(k, a, c);
  }

  lemma MulScaleRight(k: real, a: Quaternion, c: Quaternion)
    ensures Mul(c, QScale(k, a)) == QScale(k, Mul(c, a))
  {
    MulScaleRightW(k, a, c);
    MulScaleRightX(k, a, c);
    MulScaleRightY(k, a, c);
    MulScaleRightZ(k, a, c);
  }

  /** Multiplying by a real quaternion (k, 0) on either side scales. */
  lemma MulReal(k: real, x: Quaternion)
    ensures Mul(Quaternion(k, Zero), x) == QScale(k, x)
    ensures Mul(x, Quaternion(k, Zero)) == QScale(k, x)
  {}

  /** The scalar part of a product does not depend on the order of the factors. */
  lemma MulScalarCyclic(a: Quaternion, b: Quaternion)
    ensures Mul(a, b).w == Mul(b, a).w
  {}

  /** Conjugation reverses the order of a product. */
  lemma ConjugateMul(a: Quaternion, b: Quaternion)
    ensures Conjugate(Mul(a, b)) == Mul(Conjugate(b), Conjugate(a))
  {
    ConjugateMulW(a, b);
    ConjugateMulX(a, b);
    ConjugateMulY(a, b);
    ConjugateMulZ(a, b);
  }

  /** `q * ~q == ~q * q == (w*w + v.v, 0)`. */
  lemma MulConjugate(q: Quaternion)
    ensures Mul(q, Conjugate(q)) == Quaternion(Norm2(q), Zero)
    ensures Mul(Conjugate(q), q) == Quaternion(Norm2(q), Zero)
  {}

  /** For a rotation the conjugate is a two-sided inverse. */
  lemma MulConjugateUnit(q: Quaternion)
    requires IsUnit(q)
    ensures Mul(q, Conjugate(q)) == Identity
    ensures Mul(Conjugate(q), q) == Identity
  {
    MulConjugate(q);
  }

  /** The Hamilton product is associative. */
  lemma MulAssociative(a: Quaternion, b: Quaternion, c: Quaternion)
    ensures Mul(Mul(a, b), c) == Mul(a, Mul(b, c))
  {
    MulAssociativeW(a, b, c);
    MulAssociativeX(a, b, c);
    MulAssociativeY(a, b, c);
    MulAssociativeZ(a, b, c);
  }

  /** The squared norm is multiplicative, so a product of rotations is a rotation. */
  lemma Norm2Mul(a: Quaternion, b: Quaternion)
    ensures Norm2(Mul(a, b)) == Norm2(a) * Norm2(b)
  {
    var ca, cb := Conjugate(a), Conjugate(b);
    MulConjugate(Mul(a, b));
    ConjugateMul(a, b);
    MulAssociative(a, b, Mul(cb, ca));
    MulAssociative(b, cb, ca);
    MulConjugate(b);
    MulReal(Norm2(b), ca);
    MulScaleRight(Norm2(b), ca, a);
    MulConjugate(a);
  }

  lemma MulUnit(a: Quaternion, b: Quaternion)
    requires IsUnit(a) && IsUnit(b)
    ensures IsUnit(Mul(a, b))
  {
    Norm2Mul(a, b);
  }

  // ---------------------------------------------------------------------------------------------
  // Axis-angle construction

  /** The squared norm of an axis-angle quaternion is c*c + s*s*|axis|^2. */
  lemma FromAxisAngleNorm(axis: Vector3, c: real, s: real)
    ensures Norm2(FromAxisAngle(axis, c, s)) == c * c + s * s * Dot(axis, axis)
  {}

  /** With a unit axis and c*c + s*s == 1 (a cosine/sine pair) the result is a rotation. */
  lemma FromAxisAngleUnit(axis: Vector3, c: real, s: real)
    requires Dot(axis, axis) == 1.0 && c * c + s * s == 1.0
    ensures IsUnit(FromAxisAngle(axis, c, s))
  {
    FromAxisAngleNorm(axis, c, s);
  }

  /** Angle 0 (c = 1, s = 0) gives the identity whatever the axis; angle pi about z gives (0, (0, 0, 1)). */
  lemma FromAxisAngleExamples(axis: Vector3)
    ensures FromAxisAngle(axis, 1.0, 0.0) == Identity
    ensures FromAxisAngle(Vector3(0.0, 0.0, 1.0), 0.0, 1.0) == Quaternion(0.0, Vector3(0.0, 0.0, 1.0))
  {}

  // ---------------------------------------------------------------------------------------------
  // Rotation

  /** The scalar part of a sandwich is the squared norm times the scalar part of its filling. */
  lemma SandwichScalar(q: Quaternion, x: Quaternion)
    ensures Sandwich(q, x).w == Norm2(q) * x.w
  {
    // (q x) ~q and ~q (q x) share their scalar part, and ~q (q x) = (~q q) x = (|q|^2, 0) x.
    MulScalarCyclic(Mul(q, x), Conjugate(q));
    MulAssociative(Conjugate(q), q, x);
    MulConjugate(q);
    MulReal(Norm2(q), x);
  }

  /** Rotation loses nothing: the sandwich of an embedded vector is again a pure quaternion. */
  lemma RotateIsSandwich(q: Quaternion, v: Vector3)
    ensures Sandwich(q, Pure(v)) == Pure(Rotate(q, v))
  {
    SandwichScalar(q, Pure(v));
  }

  /** Rotating by the identity leaves the vector unchanged. */
  lemma RotateIdentity(v: Vector3)
    ensures Rotate(Identity, v) == v
  {
    var p := Pure(v);
    MulIdentityLeft(p);
    ConjugateIdentity();
    MulIdentityRight(p);
    assert Mul(Mul(Identity, p), Conjugate(Identity)) == p;
  }

  /** Rotation is additive in the vector. */
  lemma RotateAdd(q: Quaternion, u: Vector3, v: Vector3)
    ensures Rotate(q, Add(u, v)) == Add(Rotate(q, u), Rotate(q, v))
  {
    assert Pure(Add(u, v)) == QAdd(Pure(u), Pure(v));
    MulAddRight(Pure(u), Pure(v), q);
    MulAddLeft(Mul(q, Pure(u)), Mul(q, Pure(v)), Conjugate(q));
  }

  /** Rotation is homogeneous in the vector. */
  lemma RotateScale(q: Quaternion, k: real, v: Vector3)
    ensures Rotate(q, Scale(k, v)) == Scale(k, Rotate(q, v))
  {
    assert Pure(Scale(k, v)) == QScale(k, Pure(v));
    MulScaleRight(k, Pure(v), q);
    MulScaleLeft(k, Mul(q, Pure(v)), Conjugate(q));
  }

  /** Rotating by a product rotates by the right factor first: (q1 * q2) * v == q1 * (q2 * v). */
  lemma RotateMul(a: Quaternion, b: Quaternion, v: Vector3)
    ensures Rotate(Mul(a, b), v) == Rotate(a, Rotate(b, v))
  {
    var p := Pure(v);
    var inner := Sandwich(b, p);
    RotateIsSandwich(b, v);
    RotateIsSandwich(a, Rotate(b, v));
    ConjugateMul(a, b);
    MulAssociative(a, b, p);
    MulAssociative(Mul(a, Mul(b, p)), Conjugate(b), Conjugate(a));
    MulAssociative(a, Mul(b, p), Conjugate(b));
    assert Sandwich(Mul(a, b), p) == Sandwich(a, inner);
  }

  /** For a rotation, sandwiching commutes with the product. */
  lemma SandwichMul(q: Quaternion, x: Quaternion, y: Quaternion)
    requires IsUnit(q)
    ensures Mul(Sandwich(q, x), Sandwich(q, y)) == Sandwich(q, Mul(x, y))
  {
    var cq := Conjugate(q);
    MulAssociative(Mul(q, x), cq, Sandwich(q, y));
    MulAssociative(cq, Mul(q, y), cq);
    MulAssociative(cq, q, y);
    MulConjugateUnit(q);
    MulIdentityLeft(y);
    MulAssociative(Mul(q, x), y, cq);
    MulAssociative(q, x, y);
  }

  /** Sandwiching commutes with conjugation. */
  lemma SandwichConjugate(q: Quaternion, x: Quaternion)
    ensures Conjugate(Sandwich(q, x)) == Sandwich(q, Conjugate(x))
  {
    ConjugateMul(Mul(q, x), Conjugate(q));
    ConjugateInvolution(q);
    ConjugateMul(q, x);
    MulAssociative(q, Conjugate(x), Conjugate(q));
  }

  /** The dot product is the scalar part of (0, a) * ~(0, b). */
  lemma DotAsProduct(a: Vector3, b: Vector3)
    ensures Dot(a, b) == Mul(Pure(a), Conjugate(Pure(b))).w
  {}

  /** A rotation preserves dot products. */
  lemma RotatePreservesDot(q: Quaternion, a: Vector3, b: Vector3)
    requires IsUnit(q)
    ensures Dot(Rotate(q, a), Rotate(q, b)) == Dot(a, b)
  {
    var pa, pb := Pure(a), Pure(b);
    RotateIsSandwich(q, a);
    RotateIsSandwich(q, b);
    DotAsProduct(Rotate(q, a), Rotate(q, b));
    SandwichConjugate(q, pb);
    SandwichMul(q, pa, Conjugate(pb));
    SandwichScalar(q, Mul(pa, Conjugate(pb)));
    DotAsProduct(a, b);
  }

  /** A rotation preserves lengths. */
  lemma RotatePreservesLength(q: Quaternion, a: Vector3)
    requires IsUnit(q)
    ensures Dot(Rotate(q, a), Rotate(q, a)) == Dot(a, a)
  {
    RotatePreservesDot(q, a, a);
  }

  /** Rotating the zero vector gives the zero vector. */
  lemma RotateZero(q: Quaternion)
    ensures Rotate(q, Zero) == Zero
  {
    // r(0) = r(0 + 0) = r(0) + r(0)
    RotateAdd(q, Zero, Zero);
  }

  /** Rotation commutes with negation. */
  lemma RotateNeg(q: Quaternion, v: Vector3)
    ensures Rotate(q, Neg(v)) == Neg(Rotate(q, v))
  {
    assert Neg(v) == Scale(-1.0, v);
    RotateScale(q, -1.0, v);
  }

  /** Rotating by the conjugate of a rotation undoes it. */
  lemma RotateConjugateAfter(q: Quaternion, v: Vector3)
    requires IsUnit(q)
    ensures Rotate(Conjugate(q), Rotate(q, v)) == v
  {
    RotateMul(Conjugate(q), q, v);
    MulConjugateUnit(q);
    RotateIdentity(v);
  }

  lemma RotateConjugateBefore(q: Quaternion, v: Vector3)
    requires IsUnit(q)
    ensures Rotate(q, Rotate(Conjugate(q), v)) == v
  {
    RotateMul(q, Conjugate(q), v);
    MulConjugateUnit(q);
    RotateIdentity(v);
  }

  /**
    Rotation about the z axis by the half-angle pair (c, s): the familiar planar rotation matrix
    of the full angle, whose entries are c*c - s*s and 2*c*s, scaled along z by c*c + s*s.
  */
  lemma RotateAboutZ(c: real, s: real, v: Vector3)
    ensures Rotate(FromAxisAngle(Vector3(0.0, 0.0, 1.0), c, s), v)
         == Vector3((c * c - s * s) * v.x - 2.0 * c * s * v.y,
                    2.0 * c * s * v.x + (c * c - s * s) * v.y,
                    (c * c + s * s) * v.z)
  {
    var q := FromAxisAngle(Vector3(0.0, 0.0, 1.0), c, s);
    assert q == Quaternion(c, Vector3(0.0, 0.0, s));
    var qp := Mul(q, Pure(v));
    var r := Mul(qp, Conjugate(q));
    MulIsProduct(q, Pure(v));
    MulIsProduct(qp, Conjugate(q));
    ProductAboutZ(c, s, v.x, v.y, v.z, qp.w, qp.v.x, qp.v.y, qp.v.z, r.w, r.v.x, r.v.y, r.v.z);
  }

  /** A quarter turn about z (c = s, c*c = 1/2) maps (x, y, z) to (-y, x, z); so (1, 2, 3) goes to (-2, 1, 3). */
  lemma RotateQuarterTurn(c: real, s: real, v: Vector3)
    requires c == s && c * c == 0.5
    ensures Rotate(FromAxisAngle(Vector3(0.0, 0.0, 1.0), c, s), v) == Vector3(-v.y, v.x, v.z)
  {
    RotateAboutZ(c, s, v);
  }

  lemma RotateQuarterTurnExample(c: real, s: real)
    requires c == s && c * c == 0.5
    ensures Rotate(FromAxisAngle(Vector3(0.0, 0.0, 1.0), c, s), Vector3(1.0, 2.0, 3.0)) == Vector3(-2.0, 1.0, 3.0)
  {
    RotateQuarterTurn(c, s, Vector3(1.0, 2.0, 3.0));
  }

  // ---------------------------------------------------------------------------------------------
  // Component-wise steps of the product laws above: one field of the result at a time.

  lemma MulAddLeftW(a: Quaternion, b: Quaternion, c: Quaternion)
    ensures Mul(QAdd(a, b), c).w == Mul(a, c).w + Mul(b, c).w
  {}

  lemma MulAddLeftX(a: Quaternion, b: Quaternion, c: Quaternion)
    ensures Mul(QAdd(a, b), c).v.x == Mul(a, c).v.x + Mul(b, c).v.x
  {}

  lemma MulAddLeftY(a: Quaternion, b: Quaternion, c: Quaternion)
    ensures Mul(QAdd(a, b), c).v.y == Mul(a, c).v.y + Mul(b, c).v.y
  {}

  lemma MulAddLeftZ(a: Quaternion, b: Quaternion, c: Quaternion)
    ensures Mul(QAdd(a, b), c).v.z == Mul(a, c).v.z + Mul(b, c).v.z
  {}

  lemma MulAddRightW(a: Quaternion, b: Quaternion, c: Quaternion)
    ensures Mul(c, QAdd(a, b)).w == Mul(c, a).w + Mul(c, b).w
  {}

  lemma MulAddRightX(a: Quaternion, b: Quaternion, c: Quaternion)
    ensures Mul(c, QAdd(a, b)).v.x == Mul(c, a).v.x + Mul(c, b).v.x
  {}

  lemma MulAddRightY(a: Quaternion, b: Quaternion, c: Quaternion)
    ensures Mul(c, QAdd(a, b)).v.y == Mul(c, a).v.y + Mul(c, b).v.y
  {}

  lemma MulAddRightZ(a: Quaternion, b: Quaternion, c: Quaternion)
    ensures Mul(c, QAdd(a, b)).v.z == Mul(c, a).v.z + Mul(c, b).v.z
  {}

  lemma MulScaleLeftW(k: real, a: Quaternion, c: Quaternion)
    ensures Mul(QScale(k, a), c).w == k * Mul(a, c).w
  {
    var s := QScale(k, a);
    MulIsProduct(s, c);
    MulIsProduct(a, c);
    ProductScaleLeftW(k, a.w, a.v.x, a.v.y, a.v.z, s.w, s.v.x, s.v.y, s.v.z,
      c.w, c.v.x, c.v.y, c.v.z, Mul(s, c).w, Mul(s, c).v.x, Mul(s, c).v.y, Mul(s, c).v.z, Mul(a, c).w, Mul(a, c).v.x, Mul(a, c).v.y, Mul(a, c).v.z);
  }

  lemma MulScaleLeftX(k: real, a: Quaternion, c: Quaternion)
    ensures Mul(QScale(k, a), c).v.x == k * Mul(a, c).v.x
  {
    var s := QScale(k, a);
    MulIsProduct(s, c);
    MulIsProduct(a, c);
    ProductScaleLeftX(k, a.w, a.v.x, a.v.y, a.v.z, s.w, s.v.x, s.v.y, s.v.z,
      c.w, c.v.x, c.v.y, c.v.z, Mul(s, c).w, Mul(s, c).v.x, Mul(s, c).v.y, Mul(s, c).v.z, Mul(a, c).w, Mul(a, c).v.x, Mul(a, c).v.y, Mul(a, c).v.z);
  }

  lemma MulScaleLeftY(k: real, a: Quaternion, c: Quaternion)
    ensures Mul(QScale(k, a), c).v.y == k * Mul(a, c).v.y
  {
    var s := QScale(k, a);
    MulIsProduct(s, c);
    MulIsProduct(a, c);
    ProductScaleLeftY(k, a.w, a.v.x, a.v.y, a.v.z, s.w, s.v.x, s.v.y, s.v.z,
      c.w, c.v.x, c.v.y, c.v.z, Mul(s, c).w, Mul(s, c).v.x, Mul(s, c).v.y, Mul(s, c).v.z, Mul(a, c).w, Mul(a, c).v.x, Mul(a, c).v.y, Mul(a, c).v.z);
  }

  lemma MulScaleLeftZ(k: real, a: Quaternion, c: Quaternion)
    ensures Mul(QScale(k, a), c).v.z == k * Mul(a, c).v.z
  {
    var s := QScale(k, a);
    MulIsProduct(s, c);
    MulIsProduct(a, c);
    ProductScaleLeftZ(k, a.w, a.v.x, a.v.y, a.v.z, s.w, s.v.x, s.v.y, s.v.z,
      c.w, c.v.x, c.v.y, c.v.z, Mul(s, c).w, Mul(s, c).v.x, Mul(s, c).v.y, Mul(s, c).v.z, Mul(a, c).w, Mul(a, c).v.x, Mul(a, c).v.y, Mul(a, c).v.z);
  }

  lemma MulScaleRightW(k: real, a: Quaternion, c: Quaternion)
    ensures Mul(c, QScale(k, a)).w == k * Mul(c, a).w
  {
    var s := QScale(k, a);
    MulIsProduct(c, s);
    MulIsProduct(c, a);
    ProductScaleRightW(k, a.w, a.v.x, a.v.y, a.v.z, s.w, s.v.x, s.v.y, s.v.z,
      c.w, c.v.x, c.v.y, c.v.z, Mul(c, s).w, Mul(c, s).v.x, Mul(c, s).v.y, Mul(c, s).v.z, Mul(c, a).w, Mul(c, a).v.x, Mul(c, a).v.y, Mul(c, a).v.z);
  }

  lemma MulScaleRightX(k: real, a: Quaternion, c: Quaternion)
    ensures Mul(c, QScale(k, a)).v.x == k * Mul(c, a).v.x
  {
    var s := QScale(k, a);
    MulIsProduct(c, s);
    MulIsProduct(c, a);
    ProductScaleRightX(k, a.w, a.v.x, a.v.y, a.v.z, s.w, s.v.x, s.v.y, s.v.z,
      c.w, c.v.x, c.v.y, c.v.z, Mul(c, s).w, Mul(c, s).v.x, Mul(c, s).v.y, Mul(c, s).v.z, Mul(c, a).w, Mul(c, a).v.x, Mul(c, a).v.y, Mul(c, a).v.z);
  }

  lemma MulScaleRightY(k: real, a: Quaternion, c: Quaternion)
    ensures Mul(c, QScale(k, a)).v.y == k * Mul(c, a).v.y
  {
    var s := QScale(k, a);
    MulIsProduct(c, s);
    MulIsProduct(c, a);
    ProductScaleRightY(k, a.w, a.v.x, a.v.y, a.v.z, s.w, s.v.x, s.v.y, s.v.z,
      c.w, c.v.x, c.v.y, c.v.z, Mul(c, s).w, Mul(c, s).v.x, Mul(c, s).v.y, Mul(c, s).v.z, Mul(c, a).w, Mul(c, a).v.x, Mul(c, a).v.y, Mul(c, a).v.z);
  }

  lemma MulScaleRightZ(k: real, a: Quaternion, c: Quaternion)
    ensures Mul(c, QScale(k, a)).v.z == k * Mul(c, a).v.z
  {
    var s := QScale(k, a);
    MulIsProduct(c, s);
    MulIsProduct(c, a);
    ProductScaleRightZ(k, a.w, a.v.x, a.v.y, a.v.z, s.w, s.v.x, s.v.y, s.v.z,
      c.w, c.v.x, c.v.y, c.v.z, Mul(c, s).w, Mul(c, s).v.x, Mul(c, s).v.y, Mul(c, s).v.z, Mul(c, a).w, Mul(c, a).v.x, Mul(c, a).v.y, Mul(c, a).v.z);
  }

  lemma ConjugateMulW(a: Quaternion, b: Quaternion)
    ensures Conjugate(Mul(a, b)).w == Mul(Conjugate(b), Conjugate(a)).w
  {}

  lemma ConjugateMulX(a: Quaternion, b: Quaternion)
    ensures Conjugate(Mul(a, b)).v.x == Mul(Conjugate(b), Conjugate(a)).v.x
  {}

  lemma ConjugateMulY(a: Quaternion, b: Quaternion)
    ensures Conjugate(Mul(a, b)).v.y == Mul(Conjugate(b), Conjugate(a)).v.y
  {}

  lemma ConjugateMulZ(a: Quaternion, b: Quaternion)
    ensures Conjugate(Mul(a, b)).v.z == Mul(Conjugate(b), Conjugate(a)).v.z
  {}

  lemma MulAssociativeW(a: Quaternion, b: Quaternion, c: Quaternion)
    ensures Mul(Mul(a, b), c).w == Mul(a, Mul(b, c)).w
  {
    var p, q := Mul(a, b), Mul(b, c);
    MulIsProduct(a, b);
    MulIsProduct(b, c);
    ProductAssociativeW(a.w, a.v.x, a.v.y, a.v.z, b.w, b.v.x, b.v.y, b.v.z, c.w, c.v.x, c.v.y, c.v.z,
                      p.w, p.v.x, p.v.y, p.v.z, q.w, q.v.x, q.v.y, q.v.z);
  }

  lemma MulAssociativeX(a: Quaternion, b: Quaternion, c: Quaternion)
    ensures Mul(Mul(a, b), c).v.x == Mul(a, Mul(b, c)).v.x
  {
    var p, q := Mul(a, b), Mul(b, c);
    MulIsProduct(a, b);
    MulIsProduct(b, c);
    ProductAssociativeX(a.w, a.v.x, a.v.y, a.v.z, b.w, b.v.x, b.v.y, b.v.z, c.w, c.v.x, c.v.y, c.v.z,
                      p.w, p.v.x, p.v.y, p.v.z, q.w, q.v.x, q.v.y, q.v.z);
  }

  lemma MulAssociativeY(a: Quaternion, b: Quaternion, c: Quaternion)
    ensures Mul(Mul(a, b), c).v.y == Mul(a, Mul(b, c)).v.y
  {
    var p, q := Mul(a, b), Mul(b, c);
    MulIsProduct(a, b);
    MulIsProduct(b, c);
    ProductAssociativeY(a.w, a.v.x, a.v.y, a.v.z, b.w, b.v.x, b.v.y, b.v.z, c.w, c.v.x, c.v.y, c.v.z,
                      p.w, p.v.x, p.v.y, p.v.z, q.w, q.v.x, q.v.y, q.v.z);
  }

  lemma MulAssociativeZ(a: Quaternion, b: Quaternion, c: Quaternion)
    ensures Mul(Mul(a, b), c).v.z == Mul(a, Mul(b, c)).v.z
  {
    var p, q := Mul(a, b), Mul(b, c);
    MulIsProduct(a, b);
    MulIsProduct(b, c);
    ProductAssociativeZ(a.w, a.v.x, a.v.y, a.v.z, b.w, b.v.x, b.v.y, b.v.z, c.w, c.v.x, c.v.y, c.v.z,
                      p.w, p.v.x, p.v.y, p.v.z, q.w, q.v.x, q.v.y, q.v.z);
  }

  // The sandwich of a pure quaternion by a rotation about z, on plain reals.

  lemma ProductAboutZ(c: real, s: real, x: real, y: real, z: real, p0: real, p1: real, p2: real, p3: real,
                      r0: real, r1: real, r2: real, r3: real)
    requires IsProduct(c, 0.0, 0.0, s, 0.0, x, y, z, p0, p1, p2, p3)
    requires IsProduct(p0, p1, p2, p3, c, -0.0, -0.0, -s, r0, r1, r2, r3)
    ensures r1 == (c * c - s * s) * x - 2.0 * c * s * y
    ensures r2 == 2.0 * c * s * x + (c * c - s * s) * y
    ensures r3 == (c * c + s * s) * z
  {}

  // Scaling one factor of the plain-real product scales the product, one component at a time.

  lemma ProductScaleLeftW(k: real, a0: real, a1: real, a2: real, a3: real, s0: real, s1: real, s2: real, s3: real,
                         c0: real, c1: real, c2: real, c3: real, p0: real, p1: real, p2: real, p3: real,
                         r0: real, r1: real, r2: real, r3: real)
    requires s0 == k * a0 && s1 == k * a1 && s2 == k * a2 && s3 == k * a3
    requires IsProduct(s0, s1, s2, s3, c0, c1, c2, c3, p0, p1, p2, p3)
    requires IsProduct(a0, a1, a2, a3, c0, c1, c2, c3, r0, r1, r2, r3)
    ensures p0 == k * r0
  {
  }

  lemma ProductScaleLeftX(k: real, a0: real, a1: real, a2: real, a3: real, s0: real, s1: real, s2: real, s3: real,
                         c0: real, c1: real, c2: real, c3: real, p0: real, p1: real, p2: real, p3: real,
                         r0: real, r1: real, r2: real, r3: real)
    requires s0 == k * a0 && s1 == k * a1 && s2 == k * a2 && s3 == k * a3
    requires IsProduct(s0, s1, s2, s3, c0, c1, c2, c3, p0, p1, p2, p3)
    requires IsProduct(a0, a1, a2, a3, c0, c1, c2, c3, r0, r1, r2, r3)
    ensures p1 == k * r1
  {
  }

  lemma ProductScaleLeftY(k: real, a0: real, a1: real, a2: real, a3: real, s0: real, s1: real, s2: real, s3: real,
                         c0: real, c1: real, c2: real, c3: real, p0: real, p1: real, p2: real, p3: real,
                         r0: real, r1: real, r2: real, r3: real)
    requires s0 == k * a0 && s1 == k * a1 && s2 == k * a2 && s3 == k * a3
    requires IsProduct(s0, s1, s2, s3, c0, c1, c2, c3, p0, p1, p2, p3)
    requires IsProduct(a0, a1, a2, a3, c0, c1, c2, c3, r0, r1, r2, r3)
    ensures p2 == k * r2
  {
  }

  lemma ProductScaleLeftZ(k: real, a0: real, a1: real, a2: real, a3: real, s0: real, s1: real, s2: real, s3: real,
                         c0: real, c1: real, c2: real, c3: real, p0: real, p1: real, p2: real, p3: real,
                         r0: real, r1: real, r2: real, r3: real)
    requires s0 == k * a0 && s1 == k * a1 && s2 == k * a2 && s3 == k * a3
    requires IsProduct(s0, s1, s2, s3, c0, c1, c2, c3, p0, p1, p2, p3)
    requires IsProduct(a0, a1, a2, a3, c0, c1, c2, c3, r0, r1, r2, r3)
    ensures p3 == k * r3
  {
  }

  lemma ProductScaleRightW(k: real, a0: real, a1: real, a2: real, a3: real, s0: real, s1: real, s2: real, s3: real,
                         c0: real, c1: real, c2: real, c3: real, p0: real, p1: real, p2: real, p3: real,
                         r0: real, r1: real, r2: real, r3: real)
    requires s0 == k * a0 && s1 == k * a1 && s2 == k * a2 && s3 == k * a3
    requires IsProduct(c0, c1, c2, c3, s0, s1, s2, s3, p0, p1, p2, p3)
    requires IsProduct(c0, c1, c2, c3, a0, a1, a2, a3, r0, r1, r2, r3)
    ensures p0 == k * r0
  {
  }

  lemma ProductScaleRightX(k: real, a0: real, a1: real, a2: real, a3: real, s0: real, s1: real, s2: real, s3: real,
                         c0: real, c1: real, c2: real, c3: real, p0: real, p1: real, p2: real, p3: real,
                         r0: real, r1: real, r2: real, r3: real)
    requires s0 == k * a0 && s1 == k * a1 && s2 == k * a2 && s3 == k * a3
    requires IsProduct(c0, c1, c2, c3, s0, s1, s2, s3, p0, p1, p2, p3)
    requires IsProduct(c0, c1, c2, c3, a0, a1, a2, a3, r0, r1, r2, r3)
    ensures p1 == k * r1
  {
  }

  lemma ProductScaleRightY(k: real, a0: real, a1: real, a2: real, a3: real, s0: real, s1: real, s2: real, s3: real,
                         c0: real, c1: real, c2: real, c3: real, p0: real, p1: real, p2: real, p3: real,
                         r0: real, r1: real, r2: real, r3: real)
    requires s0 == k * a0 && s1 == k * a1 && s2 == k * a2 && s3 == k * a3
    requires IsProduct(c0, c1, c2, c3, s0, s1, s2, s3, p0, p1, p2, p3)
    requires IsProduct(c0, c1, c2, c3, a0, a1, a2, a3, r0, r1, r2, r3)
    ensures p2 == k * r2
  {
  }

  lemma ProductScaleRightZ(k: real, a0: real, a1: real, a2: real, a3: real, s0: real, s1: real, s2: real, s3: real,
                         c0: real, c1: real, c2: real, c3: real, p0: real, p1: real, p2: real, p3: real,
                         r0: real, r1: real, r2: real, r3: real)
    requires s0 == k * a0 && s1 == k * a1 && s2 == k * a2 && s3 == k * a3
    requires IsProduct(c0, c1, c2, c3, s0, s1, s2, s3, p0, p1, p2, p3)
    requires IsProduct(c0, c1, c2, c3, a0, a1, a2, a3, r0, r1, r2, r3)
    ensures p3 == k * r3
  {
  }

  // The associativity of the plain-real product, one component at a time (index 0 is the scalar
  // part, 1 to 3 the x, y, z parts): both sides expand to the same sixteen degree-3 monomials.

  lemma ProductAssociativeW(a0: real, a1: real, a2: real, a3: real, b0: real, b1: real, b2: real, b3: real,
                     c0: real, c1: real, c2: real, c3: real, p0: real, p1: real, p2: real, p3: real,
                     q0: real, q1: real, q2: real, q3: real)
    requires IsProduct(a0, a1, a2, a3, b0, b1, b2, b3, p0, p1, p2, p3)
    requires IsProduct(b0, b1, b2, b3, c0, c1, c2, c3, q0, q1, q2, q3)
    ensures -p1 * c1 - p2 * c2 - p3 * c3 + p0 * c0 == -a1 * q1 - a2 * q2 - a3 * q3 + a0 * q0
  {
    assert p1 * c1 == a1 * b0 * c1 + a2 * b3 * c1 + a0 * b1 * c1 - a3 * b2 * c1;
    assert p2 * c2 == a2 * b0 * c2 + a3 * b1 * c2 + a0 * b2 * c2 - a1 * b3 * c2;
    assert p3 * c3 == a1 * b2 * c3 + a3 * b0 * c3 + a0 * b3 * c3 - a2 * b1 * c3;
    assert p0 * c0 == a0 * b0 * c0 - a1 * b1 * c0 - a2 * b2 * c0 - a3 * b3 * c0;
    assert a1 * q1 == a1 * b1 * c0 + a1 * b2 * c3 + a1 * b0 * c1 - a1 * b3 * c2;
    assert a2 * q2 == a2 * b2 * c0 + a2 * b3 * c1 + a2 * b0 * c2 - a2 * b1 * c3;
    assert a3 * q3 == a3 * b1 * c2 + a3 * b3 * c0 + a3 * b0 * c3 - a3 * b2 * c1;
    assert a0 * q0 == a0 * b0 * c0 - a0 * b1 * c1 - a0 * b2 * c2 - a0 * b3 * c3;
    assert -p1 * c1 - p2 * c2 - p3 * c3 + p0 * c0
      == a3 * b2 * c1 + a1 * b3 * c2 + a2 * b1 * c3 + a0 * b0 * c0 - a1 * b0 * c1 - a2 * b3 * c1 - a0 * b1 * c1 - a2 * b0 * c2 - a3 * b1 * c2 - a0 * b2 * c2 - a1 * b2 * c3 - a3 * b0 * c3 - a0 * b3 * c3 - a1 * b1 * c0 - a2 * b2 * c0 - a3 * b3 * c0;
    assert -a1 * q1 - a2 * q2 - a3 * q3 + a0 * q0
      == a3 * b2 * c1 + a1 * b3 * c2 + a2 * b1 * c3 + a0 * b0 * c0 - a1 * b0 * c1 - a2 * b3 * c1 - a0 * b1 * c1 - a2 * b0 * c2 - a3 * b1 * c2 - a0 * b2 * c2 - a1 * b2 * c3 - a3 * b0 * c3 - a0 * b3 * c3 - a1 * b1 * c0 - a2 * b2 * c0 - a3 * b3 * c0;
  }

  lemma ProductAssociativeX(a0: real, a1: real, a2: real, a3: real, b0: real, b1: real, b2: real, b3: real,
                     c0: real, c1: real, c2: real, c3: real, p0: real, p1: real, p2: real, p3: real,
                     q0: real, q1: real, q2: real, q3: real)
    requires IsProduct(a0, a1, a2, a3, b0, b1, b2, b3, p0, p1, p2, p3)
    requires IsProduct(b0, b1, b2, b3, c0, c1, c2, c3, q0, q1, q2, q3)
    ensures p1 * c0 + p2 * c3 - p3 * c2 + p0 * c1 == a1 * q0 + a2 * q3 - a3 * q2 + a0 * q1
  {
    assert p1 * c0 == a1 * b0 * c0 + a2 * b3 * c0 + a0 * b1 * c0 - a3 * b2 * c0;
    assert p2 * c3 == a2 * b0 * c3 + a3 * b1 * c3 + a0 * b2 * c3 - a1 * b3 * c3;
    assert p3 * c2 == a1 * b2 * c2 + a3 * b0 * c2 + a0 * b3 * c2 - a2 * b1 * c2;
    assert p0 * c1 == a0 * b0 * c1 - a1 * b1 * c1 - a2 * b2 * c1 - a3 * b3 * c1;
    assert a1 * q0 == a1 * b0 * c0 - a1 * b1 * c1 - a1 * b2 * c2 - a1 * b3 * c3;
    assert a2 * q3 == a2 * b1 * c2 + a2 * b3 * c0 + a2 * b0 * c3 - a2 * b2 * c1;
    assert a3 * q2 == a3 * b2 * c0 + a3 * b3 * c1 + a3 * b0 * c2 - a3 * b1 * c3;
    assert a0 * q1 == a0 * b1 * c0 + a0 * b2 * c3 + a0 * b0 * c1 - a0 * b3 * c2;
    assert p1 * c0 + p2 * c3 - p3 * c2 + p0 * c1
      == a1 * b0 * c0 + a2 * b3 * c0 + a0 * b1 * c0 + a2 * b0 * c3 + a3 * b1 * c3 + a0 * b2 * c3 + a2 * b1 * c2 + a0 * b0 * c1 - a3 * b2 * c0 - a1 * b3 * c3 - a1 * b2 * c2 - a3 * b0 * c2 - a0 * b3 * c2 - a1 * b1 * c1 - a2 * b2 * c1 - a3 * b3 * c1;
    assert a1 * q0 + a2 * q3 - a3 * q2 + a0 * q1
      == a1 * b0 * c0 + a2 * b3 * c0 + a0 * b1 * c0 + a2 * b0 * c3 + a3 * b1 * c3 + a0 * b2 * c3 + a2 * b1 * c2 + a0 * b0 * c1 - a3 * b2 * c0 - a1 * b3 * c3 - a1 * b2 * c2 - a3 * b0 * c2 - a0 * b3 * c2 - a1 * b1 * c1 - a2 * b2 * c1 - a3 * b3 * c1;
  }

  lemma ProductAssociativeY(a0: real, a1: real, a2: real, a3: real, b0: real, b1: real, b2: real, b3: real,
                     c0: real, c1: real, c2: real, c3: real, p0: real, p1: real, p2: real, p3: real,
                     q0: real, q1: real, q2: real, q3: real)
    requires IsProduct(a0, a1, a2, a3, b0, b1, b2, b3, p0, p1, p2, p3)
    requires IsProduct(b0, b1, b2, b3, c0, c1, c2, c3, q0, q1, q2, q3)
    ensures -p1 * c3 + p2 * c0 + p3 * c1 + p0 * c2 == -a1 * q3 + a2 * q0 + a3 * q1 + a0 * q2
  {
    assert p1 * c3 == a1 * b0 * c3 + a2 * b3 * c3 + a0 * b1 * c3 - a3 * b2 * c3;
    assert p2 * c0 == a2 * b0 * c0 + a3 * b1 * c0 + a0 * b2 * c0 - a1 * b3 * c0;
    assert p3 * c1 == a1 * b2 * c1 + a3 * b0 * c1 + a0 * b3 * c1 - a2 * b1 * c1;
    assert p0 * c2 == a0 * b0 * c2 - a1 * b1 * c2 - a2 * b2 * c2 - a3 * b3 * c2;
    assert a1 * q3 == a1 * b1 * c2 + a1 * b3 * c0 + a1 * b0 * c3 - a1 * b2 * c1;
    assert a2 * q0 == a2 * b0 * c0 - a2 * b1 * c1 - a2 * b2 * c2 - a2 * b3 * c3;
    assert a3 * q1 == a3 * b1 * c0 + a3 * b2 * c3 + a3 * b0 * c1 - a3 * b3 * c2;
    assert a0 * q2 == a0 * b2 * c0 + a0 * b3 * c1 + a0 * b0 * c2 - a0 * b1 * c3;
    assert -p1 * c3 + p2 * c0 + p3 * c1 + p0 * c2
      == a3 * b2 * c3 + a2 * b0 * c0 + a3 * b1 * c0 + a0 * b2 * c0 + a1 * b2 * c1 + a3 * b0 * c1 + a0 * b3 * c1 + a0 * b0 * c2 - a1 * b0 * c3 - a2 * b3 * c3 - a0 * b1 * c3 - a1 * b3 * c0 - a2 * b1 * c1 - a1 * b1 * c2 - a2 * b2 * c2 - a3 * b3 * c2;
    assert -a1 * q3 + a2 * q0 + a3 * q1 + a0 * q2
      == a3 * b2 * c3 + a2 * b0 * c0 + a3 * b1 * c0 + a0 * b2 * c0 + a1 * b2 * c1 + a3 * b0 * c1 + a0 * b3 * c1 + a0 * b0 * c2 - a1 * b0 * c3 - a2 * b3 * c3 - a0 * b1 * c3 - a1 * b3 * c0 - a2 * b1 * c1 - a1 * b1 * c2 - a2 * b2 * c2 - a3 * b3 * c2;
  }

  lemma ProductAssociativeZ(a0: real, a1: real, a2: real, a3: real, b0: real, b1: real, b2: real, b3: real,
                     c0: real, c1: real, c2: real, c3: real, p0: real, p1: real, p2: real, p3: real,
                     q0: real, q1: real, q2: real, q3: real)
    requires IsProduct(a0, a1, a2, a3, b0, b1, b2, b3, p0, p1, p2, p3)
    requires IsProduct(b0, b1, b2, b3, c0, c1, c2, c3, q0, q1, q2, q3)
    ensures p1 * c2 - p2 * c1 + p3 * c0 + p0 * c3 == a1 * q2 - a2 * q1 + a3 * q0 + a0 * q3
  {
    assert p1 * c2 == a1 * b0 * c2 + a2 * b3 * c2 + a0 * b1 * c2 - a3 * b2 * c2;
    assert p2 * c1 == a2 * b0 * c1 + a3 * b1 * c1 + a0 * b2 * c1 - a1 * b3 * c1;
    assert p3 * c0 == a1 * b2 * c0 + a3 * b0 * c0 + a0 * b3 * c0 - a2 * b1 * c0;
    assert p0 * c3 == a0 * b0 * c3 - a1 * b1 * c3 - a2 * b2 * c3 - a3 * b3 * c3;
    assert a1 * q2 == a1 * b2 * c0 + a1 * b3 * c1 + a1 * b0 * c2 - a1 * b1 * c3;
    assert a2 * q1 == a2 * b1 * c0 + a2 * b2 * c3 + a2 * b0 * c1 - a2 * b3 * c2;
    assert a3 * q0 == a3 * b0 * c0 - a3 * b1 * c1 - a3 * b2 * c2 - a3 * b3 * c3;
    assert a0 * q3 == a0 * b1 * c2 + a0 * b3 * c0 + a0 * b0 * c3 - a0 * b2 * c1;
    assert p1 * c2 - p2 * c1 + p3 * c0 + p0 * c3
      == a1 * b0 * c2 + a2 * b3 * c2 + a0 * b1 * c2 + a1 * b3 * c1 + a1 * b2 * c0 + a3 * b0 * c0 + a0 * b3 * c0 + a0 * b0 * c3 - a3 * b2 * c2 - a2 * b0 * c1 - a3 * b1 * c1 - a0 * b2 * c1 - a2 * b1 * c0 - a1 * b1 * c3 - a2 * b2 * c3 - a3 * b3 * c3;
    assert a1 * q2 - a2 * q1 + a3 * q0 + a0 * q3
      == a1 * b0 * c2 + a2 * b3 * c2 + a0 * b1 * c2 + a1 * b3 * c1 + a1 * b2 * c0 + a3 * b0 * c0 + a0 * b3 * c0 + a0 * b0 * c3 - a3 * b2 * c2 - a2 * b0 * c1 - a3 * b1 * c1 - a0 * b2 * c1 - a2 * b1 * c0 - a1 * b1 * c3 - a2 * b2 * c3 - a3 * b3 * c3;
  }
}
