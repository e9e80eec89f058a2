/**
  Rigid-body transforms: a position and a rotation quaternion. A transform maps a vector by
  rotating it and then adding the position; composing and inverting transforms stays inside
  the same (position, rotation) form.
*/
module Transforms {
  import opened Vectors
  import opened Quaternions

  datatype Transform = Transform(position: Vector3, rotation: Quaternion)

  /** The default-constructed transform: zero position, identity rotation. */
  const IdentityTransform: Transform := Transform(Zero, Identity)

  /** A transform whose rotation is a unit quaternion, i.e. a rigid motion. */
  predicate IsRigid(t: Transform) {
    IsUnit(t.rotation)
  }

  /** The inverse (`~t`): rotate the negated position back, and rotate by the conjugate. */
  function Inverse(t: Transform): Transform {
    var r := Conjugate(t.rotation);
    Transform(Rotate(r, Neg(t.position)), r)
  }

  /** Composition (`a * b` of two transforms): `b` is applied first, then `a`. */
  function Compose(a: Transform, b: Transform): Transform {
    Transform(Add(a.position, Rotate(a.rotation, b.position)), Mul(a.rotation, b.rotation))
  }

  /** Mapping a vector (`t * v`): rotate it, then translate by the position. */
  function Apply(t: Transform, v: Vector3): Vector3 {
    Add(t.position, Rotate(t.rotation, v))
  }

  // ---------------------------------------------------------------------------------------------
  // Identity and composition

  /** The default transform maps every vector to itself. */
  lemma ApplyIdentity(v: Vector3)
    ensures Apply(IdentityTransform, v) == v
  {
    RotateIdentity(v);
  }

  /** The default transform is a two-sided identity for composition. */
  lemma ComposeIdentityLeft(t: Transform)
    ensures Compose(IdentityTransform, t) == t
  {
    RotateIdentity(t.position);
    MulIdentityLeft(t.rotation);
  }

  lemma ComposeIdentityRight(t: Transform)
    ensures Compose(t, IdentityTransform) == t
  {
    RotateZero(t.rotation);
    MulIdentityRight(t.rotation);
  }

  /** Applying a composite is applying its parts in sequence, the right-hand one first. */
  lemma ApplyCompose(a: Transform, b: Transform, v: Vector3)
    ensures Apply(Compose(a, b), v) == Apply(a, Apply(b, v))
  {
    RotateMul(a.rotation, b.rotation, v);
    RotateAdd(a.rotation, b.position, Rotate(b.rotation, v));
  }

  /** Composition is associative. */
  lemma ComposeAssociative(a: Transform, b: Transform, c: Transform)
    ensures Compose(Compose(a, b), c) == Compose(a, Compose(b, c))
  {
    RotateMul(a.rotation, b.rotation, c.position);
    RotateAdd(a.rotation, b.position, Rotate(b.rotation, c.position));
    MulAssociative(a.rotation, b.rotation, c.rotation);
  }

  /** Rigid transforms are closed under composition. */
  lemma ComposeRigid(a: Transform, b: Transform)
    requires IsRigid(a) && IsRigid(b)
    ensures IsRigid(Compose(a, b))
  {
    MulUnit(a.rotation, b.rotation);
  }

  // ---------------------------------------------------------------------------------------------
  // Inverse

  /** The inverse of a rigid transform is rigid. */
  lemma InverseRigid(t: Transform)
    requires IsRigid(t)
    ensures IsRigid(Inverse(t))
  {
    ConjugateInvolution(t.rotation);
  }

  /** The inverse undoes a rigid transform, whichever is applied first. */
  lemma InverseApplyAfter(t: Transform, v: Vector3)
    requires IsRigid(t)
    ensures Apply(Inverse(t), Apply(t, v)) == v
  {
    var r, p := t.rotation, t.position;
    var w := Rotate(r, v);
    // ~r(-p) + ~r(p + r(v)) = ~r(-p + p + r(v)) = ~r(r(v)) = v
    RotateAdd(Conjugate(r), Neg(p), Add(p, w));
    assert Add(Neg(p), Add(p, w)) == w;
    RotateConjugateAfter(r, v);
  }

  lemma InverseApplyBefore(t: Transform, v: Vector3)
    requires IsRigid(t)
    ensures Apply(t, Apply(Inverse(t), v)) == v
  {
    var r, p := t.rotation, t.position;
    var cr := Conjugate(r);
    // p + r(~r(-p) + ~r(v)) = p + r(~r(-p)) + r(~r(v)) = p - p + v
    RotateAdd(r, Rotate(cr, Neg(p)), Rotate(cr, v));
    RotateConjugateBefore(r, Neg(p));
    RotateConjugateBefore(r, v);
  }

  /** A rigid transform composed with its inverse, in either order, is the identity. */
  lemma ComposeInverseRight(t: Transform)
    requires IsRigid(t)
    ensures Compose(t, Inverse(t)) == IdentityTransform
  {
    RotateConjugateBefore(t.rotation, Neg(t.position));
    MulConjugateUnit(t.rotation);
  }

  lemma ComposeInverseLeft(t: Transform)
    requires IsRigid(t)
    ensures Compose(Inverse(t), t) == IdentityTransform
  {
    var cr := Conjugate(t.rotation);
    // ~r(-p) + ~r(p) = ~r(-p + p) = ~r(0) = 0
    RotateAdd(cr, Neg(t.position), t.position);
    assert Add(Neg(t.position), t.position) == Zero;
    RotateZero(cr);
    MulConjugateUnit(t.rotation);
  }

  /** Inverting a rigid transform twice gives it back. */
  lemma InverseInvolution(t: Transform)
    requires IsRigid(t)
    ensures Inverse(Inverse(t)) == t
  {
    var r, p := t.rotation, t.position;
    ConjugateInvolution(r);
    // r(-~r(-p)) = -r(~r(-p)) = -(-p) = p
    RotateNeg(r, Rotate(Conjugate(r), Neg(p)));
    RotateConjugateBefore(r, Neg(p));
    NegInvolution(p);
  }

  /** The inverse of a composite is the composite of the inverses in the opposite order. */
  lemma InverseCompose(a: Transform, b: Transform)
    requires IsRigid(a)
    ensures Inverse(Compose(a, b)) == Compose(Inverse(b), Inverse(a))
  {
    var ra, rb := a.rotation, b.rotation;
    var ca, cb := Conjugate(ra), Conjugate(rb);
    var u := Rotate(ra, b.position);
    ConjugateMul(ra, rb);
    // ~(ra rb)(-(pa + ra(pb))) = ~rb(~ra(-pa) + ~ra(-ra(pb))) = ~rb(~ra(-pa)) + ~rb(-pb)
    assert Neg(Add(a.position, u)) == Add(Neg(a.position), Neg(u));
    RotateMul(cb, ca, Add(Neg(a.position), Neg(u)));
    RotateAdd(ca, Neg(a.position), Neg(u));
    RotateNeg(ra, b.position);
    RotateConjugateAfter(ra, Neg(b.position));
    RotateAdd(cb, Rotate(ca, Neg(a.position)), Neg(b.position));
    AddCommutativeAssociative(Rotate(cb, Rotate(ca, Neg(a.position))), Rotate(cb, Neg(b.position)), Zero);
  }

  // ---------------------------------------------------------------------------------------------
  // Geometry

  /** A rigid transform preserves distances: |t(u) - t(v)|^2 == |u - v|^2. */
  lemma ApplyPreservesDistance(t: Transform, u: Vector3, v: Vector3)
    requires IsRigid(t)
    ensures Dot(Sub(Apply(t, u), Apply(t, v)), Sub(Apply(t, u), Apply(t, v))) == Dot(Sub(u, v), Sub(u, v))
  {
    var r := t.rotation;
    // t(u) - t(v) = r(u) - r(v) = r(u - v)
    RotateAdd(r, Sub(u, v), v);
    AddSubCancel(u, v);
    assert Sub(Apply(t, u), Apply(t, v)) == Rotate(r, Sub(u, v));
    RotatePreservesLength(r, Sub(u, v));
  }

  // ---------------------------------------------------------------------------------------------
  // Concrete cases: the quarter turn about z is (c, (0, 0, s)) with c = s and c*c = 1/2.

  /** The transform at (1, 2, 3) turned a quarter about z maps (4, 5, 6) to (-4, 6, 9). */
  lemma ApplyQuarterTurnExample(c: real, s: real)
    requires c == s && c * c == 0.5
    ensures Apply(Transform(Vector3(1.0, 2.0, 3.0), FromAxisAngle(Vector3(0.0, 0.0, 1.0), c, s)),
                  Vector3(4.0, 5.0, 6.0)) == Vector3(-4.0, 6.0, 9.0)
  {
    RotateQuarterTurn(c, s, Vector3(4.0, 5.0, 6.0));
  }

  /** Its inverse sits at (-2, 1, -3) and turns a quarter the other way. */
  lemma InverseQuarterTurnExample(c: real, s: real)
    requires c == s && c * c == 0.5
    ensures Inverse(Transform(Vector3(1.0, 2.0, 3.0), FromAxisAngle(Vector3(0.0, 0.0, 1.0), c, s)))
         == Transform(Vector3(-2.0, 1.0, -3.0), Quaternion(c, Vector3(0.0, 0.0, -c)))
  {
    var q := FromAxisAngle(Vector3(0.0, 0.0, 1.0), c, s);
    var p := Vector3(1.0, 2.0, 3.0);
    FromAxisAngleNorm(Vector3(0.0, 0.0, 1.0), c, s);
    // the quarter turn maps (-2, 1, -3) to -p, so its conjugate maps -p back to (-2, 1, -3)
    RotateQuarterTurn(c, s, Vector3(-2.0, 1.0, -3.0));
    RotateConjugateAfter(q, Vector3(-2.0, 1.0, -3.0));
  }

  /** A rotation about z by the half-angle pair (c, s) at position p maps (k, 0, 0) to p + k (c*c - s*s, 2*c*s, 0). */
  lemma ApplyHeading(p: Vector3, c: real, s: real, k: real)
    ensures Apply(Transform(p, FromAxisAngle(Vector3(0.0, 0.0, 1.0), c, s)), Vector3(k, 0.0, 0.0))
         == Add(p, Vector3(k * (c * c - s * s), k * (2.0 * c * s), 0.0))
  {
    RotateAboutZ(c, s, Vector3(k, 0.0, 0.0));
  }

  /**
    Looking along a heading: for a rotation about z by the half-angle pair (c, s), the point
    k units ahead of the position, along (c*c - s*s, 2*c*s, 0), is mapped by the inverse to
    (k, 0, 0). With k = 1 at the origin this is the 30 degree case; with k = sqrt 2 at (1, 1, 0)
    the 45 degree case.
  */
  lemma InverseHeading(p: Vector3, c: real, s: real, k: real)
    requires c * c + s * s == 1.0
    ensures Apply(Inverse(Transform(p, FromAxisAngle(Vector3(0.0, 0.0, 1.0), c, s))),
                  Add(p, Vector3(k * (c * c - s * s), k * (2.0 * c * s), 0.0))) == Vector3(k, 0.0, 0.0)
  {
    var t := Transform(p, FromAxisAngle(Vector3(0.0, 0.0, 1.0), c, s));
    FromAxisAngleUnit(Vector3(0.0, 0.0, 1.0), c, s);
    ApplyHeading(p, c, s, k);
    InverseApplyAfter(t, Vector3(k, 0.0, 0.0));
  }
}
