# Rigid-body transforms over exact reals

This project models the header-only transform library `include/transform.hpp` in Dafny. The library has three value types, each with pure operators:

- **Vector3** is a 3-tuple with componentwise `+`, `-` and unary `-`, plus the dot product (`*` of two vectors).
- **Quaternion** is a scalar `w` and a vector `v`. It has four constructors (default `(1, 0)`, `(w, v)`, `(w, x, y, z)`, axis-angle), `norm()`, the conjugate `~` and the Hamilton product `*`. Rotation of a vector, `q * v`, is the vector part of the sandwich `q * (0, v) * ~q`.
- **Transform** is a position and a rotation. It has the inverse `~t`, composition `a * b` and mapping of a vector `t * v`.

The model has three modules, one per layer:

- `Vectors` in `vector3.dfy`.
- `Quaternions` in `quaternion.dfy`.
- `Transforms` in `transform.dfy`.

Each struct is a datatype over `real`, and each operator is a function. The three C++ `*` operators on vectors, quaternions and transforms are kept apart:

- `Dot` is the vector dot product.
- `Mul` is the Hamilton product.
- `Rotate` is a quaternion acting on a vector.
- `Compose` is transform composition.
- `Apply` is a transform acting on a vector.

`Mul` keeps the source's term order and signs, component by component. `Rotate` keeps the source's left-to-right grouping `(q * p) * ~q`.

The product laws are proved first: associativity, the identity, distributivity, scaling, conjugate of a product, and `q * ~q`. Distributivity, scaling, conjugate of a product and associativity are each proved one component at a time. Scaling and associativity go further, through `IsProduct`, the product's formula restated over plain reals; associativity then expands both sides into the same sixteen degree-3 terms. The identity, `q * ~q` and multiplication by a real quaternion are proved directly from the definition. Most rotation and transform laws are derived from the product laws by chains of lemma calls. The exception is the closed form of a rotation about z (`RotateAboutZ`), which is expanded through the plain-real product.

A rotation is a quaternion of squared norm 1 (`IsUnit`), and a rigid transform is one whose rotation is a rotation (`IsRigid`). The library does not enforce either condition. Every property that depends on one takes it as a precondition.

## Model

| member | source | states |
|---|---|---|
| Vectors.Zero | include/transform.hpp:17-22 | the default-constructed vector (0, 0, 0) |
| Vectors.Add | include/transform.hpp:31-34 | componentwise sum |
| Vectors.Sub | include/transform.hpp:37-40 | componentwise difference |
| Vectors.Dot | include/transform.hpp:43-46 | dot product, a scalar |
| Vectors.Neg | include/transform.hpp:49-52 | componentwise negation |
| Vectors.NegInvolution | include/transform.hpp:49-52 | negation is an involution, and `a + (-a)` is the zero vector |
| Vectors.AddSubCancel | include/transform.hpp:31-40 | `(a + b) - b == a`, `(a - b) + b == a`, and `a - b == a + (-b)` |
| Vectors.AddCommutativeAssociative | include/transform.hpp:31-34 | addition is commutative and associative, with the default vector as its unit |
| Vectors.DotSymmetric | include/transform.hpp:43-46 | the dot product is symmetric |
| Vectors.DotLinear | include/transform.hpp:43-52 | the dot product is additive and homogeneous in its first argument, and commutes with negation |
| Vectors.VectorExamples | test/test_transform.cpp:24-60 | the default vector is zero; `{1,2,3}+{4,5,6}={5,7,9}`, `{1,2,3}-{2,2,1}={-1,0,2}`, `{1,2,3}·{2,-2,1}=1`, `-{1,2,-3}={-1,-2,3}` |
| Quaternions.Identity | include/transform.hpp:68-72 | the default quaternion (1, 0) |
| Quaternions.FromComponents | include/transform.hpp:77-80 | the `(w, x, y, z)` constructor |
| Quaternions.FromAxisAngle | include/transform.hpp:81-87 | the axis-angle constructor `(c, s·axis)`, where `c` and `s` are the half-angle cosine and sine |
| Quaternions.Norm2 | include/transform.hpp:88-91 | the square of `norm()`, `w·w + v·v`, which is never negative |
| Quaternions.Conjugate | include/transform.hpp:95-98 | `~q = (w, -v)` |
| Quaternions.Mul | include/transform.hpp:101-112 | the Hamilton product, term for term |
| Quaternions.Rotate | include/transform.hpp:115-120 | the vector part of `(q * (0, v)) * ~q` |
| Quaternions.ConjugateInvolution | include/transform.hpp:95-98 | the conjugate keeps `w` and negates `v`; it is an involution; it preserves the squared norm |
| Quaternions.ConjugateExample | test/test_transform.cpp:83-88 | `~(1,{2,3,4}) = (1,{-2,-3,-4})` |
| Quaternions.ConjugateIdentity | include/transform.hpp:95-98 | the default quaternion is its own conjugate |
| Quaternions.MulReferenceForm | include/transform.hpp:101-112 | the product equals the textbook form `(aw·bw − av·bv, aw·bv + bw·av + av×bv)` |
| Quaternions.MulIdentityLeft | include/transform.hpp:68-112 | the default quaternion `(1, 0)` is a left identity of the product |
| Quaternions.MulIdentityRight | include/transform.hpp:68-112 | the default quaternion `(1, 0)` is a right identity of the product |
| Quaternions.MulNotCommutative | include/transform.hpp:101-112 | `i·j = k` but `j·i = −k`, so the argument order matters |
| Quaternions.MulAddLeft | include/transform.hpp:101-112 | the product distributes over a sum in its left argument |
| Quaternions.MulAddRight | include/transform.hpp:101-112 | the product distributes over a sum in its right argument |
| Quaternions.MulScaleLeft | include/transform.hpp:101-112 | a scalar factor moves out of the left argument |
| Quaternions.MulScaleRight | include/transform.hpp:101-112 | a scalar factor moves out of the right argument |
| Quaternions.MulReal | include/transform.hpp:101-112 | multiplying by a real quaternion `(k, 0)` on either side scales by `k` |
| Quaternions.MulScalarCyclic | include/transform.hpp:101-112 | the scalar part of `a·b` equals that of `b·a` |
| Quaternions.ConjugateMul | include/transform.hpp:95-112 | `~(a·b) = ~b·~a` |
| Quaternions.MulConjugate | include/transform.hpp:88-112 | `q·~q = ~q·q = (w·w + v·v, 0)` |
| Quaternions.MulConjugateUnit | include/transform.hpp:88-112 | for a unit `q`, `q·~q` and `~q·q` both equal the default quaternion |
| Quaternions.MulAssociative | include/transform.hpp:101-112 | the Hamilton product is associative |
| Quaternions.Norm2Mul | include/transform.hpp:88-112 | the squared norm is multiplicative |
| Quaternions.MulUnit | include/transform.hpp:88-112 | the product of two rotations is a rotation |
| Quaternions.FromAxisAngleNorm | include/transform.hpp:81-91 | the squared norm of the axis-angle quaternion is `c² + s²·|axis|²` |
| Quaternions.FromAxisAngleUnit | include/transform.hpp:81-91 | with a unit axis and `c² + s² = 1` the axis-angle quaternion is a rotation |
| Quaternions.FromAxisAngleExamples | test/test_transform.cpp:65-81 | angle 0 gives the default quaternion; a half turn about z gives `(0, {0,0,1})` |
| Quaternions.SandwichScalar | include/transform.hpp:115-120 | the scalar part of `q·x·~q` is `|q|²` times that of `x` |
| Quaternions.RotateIsSandwich | include/transform.hpp:115-120 | the sandwich of a pure quaternion is pure, so keeping only `p.v` loses nothing |
| Quaternions.RotateIdentity | include/transform.hpp:115-120 | rotating by the default quaternion leaves a vector unchanged |
| Quaternions.RotateAdd | include/transform.hpp:115-120 | rotation is additive in the vector |
| Quaternions.RotateScale | include/transform.hpp:115-120 | rotation is homogeneous in the vector |
| Quaternions.RotateMul | include/transform.hpp:101-120 | `(q1·q2)·v = q1·(q2·v)` |
| Quaternions.SandwichMul | include/transform.hpp:101-120 | for a unit `q`, sandwiching commutes with the product |
| Quaternions.SandwichConjugate | include/transform.hpp:95-120 | sandwiching commutes with conjugation |
| Quaternions.DotAsProduct | include/transform.hpp:43-46 | `a·b` is the scalar part of `(0,a)·~(0,b)` |
| Quaternions.RotatePreservesDot | include/transform.hpp:115-120 | a unit quaternion preserves dot products |
| Quaternions.RotatePreservesLength | include/transform.hpp:115-120 | a unit quaternion preserves squared lengths |
| Quaternions.RotateZero | include/transform.hpp:115-120 | rotating the zero vector gives zero |
| Quaternions.RotateNeg | include/transform.hpp:115-120 | rotation commutes with negation |
| Quaternions.RotateConjugateAfter | include/transform.hpp:95-120 | for a unit `q`, `~q·(q·v) = v` |
| Quaternions.RotateConjugateBefore | include/transform.hpp:95-120 | for a unit `q`, `q·(~q·v) = v` |
| Quaternions.RotateAboutZ | include/transform.hpp:81-120 | rotating about z by the pair `(c, s)` is the planar rotation with entries `c²−s²` and `2cs`, scaled along z by `c²+s²` |
| Quaternions.RotateQuarterTurn | include/transform.hpp:81-120 | a quarter turn about z maps `(x, y, z)` to `(−y, x, z)` |
| Quaternions.RotateQuarterTurnExample | test/test_transform.cpp:93-98 | the quarter turn maps `{1,2,3}` to `{-2,1,3}` |
| Transforms.IdentityTransform | include/transform.hpp:136-140 | the default transform: zero position and the default quaternion |
| Transforms.Inverse | include/transform.hpp:148-151 | `~t = (~r·(−p), ~r)` |
| Transforms.Compose | include/transform.hpp:154-157 | `a·b = (pa + ra·pb, ra·rb)` |
| Transforms.Apply | include/transform.hpp:160-163 | `t·v = p + r·v` |
| Transforms.ApplyIdentity | include/transform.hpp:133-163 | the default transform maps every vector to itself |
| Transforms.ComposeIdentityLeft | include/transform.hpp:133-157 | the default transform is a left identity of composition |
| Transforms.ComposeIdentityRight | include/transform.hpp:133-157 | the default transform is a right identity of composition |
| Transforms.ApplyCompose | include/transform.hpp:154-163 | `(a·b)·v = a·(b·v)` |
| Transforms.ComposeAssociative | include/transform.hpp:154-157 | composition is associative |
| Transforms.ComposeRigid | include/transform.hpp:154-157 | the composite of two rigid transforms is rigid |
| Transforms.InverseRigid | include/transform.hpp:148-151 | the inverse of a rigid transform is rigid |
| Transforms.InverseApplyAfter | include/transform.hpp:148-163 | for a rigid `t`, `~t·(t·v) = v` |
| Transforms.InverseApplyBefore | include/transform.hpp:148-163 | for a rigid `t`, `t·(~t·v) = v` |
| Transforms.ComposeInverseRight | include/transform.hpp:148-157 | for a rigid `t`, `t·~t` is the default transform |
| Transforms.ComposeInverseLeft | include/transform.hpp:148-157 | for a rigid `t`, `~t·t` is the default transform |
| Transforms.InverseInvolution | include/transform.hpp:148-151 | for a rigid `t`, `~~t = t` |
| Transforms.InverseCompose | include/transform.hpp:148-157 | for a rigid `a`, `~(a·b) = ~b·~a` |
| Transforms.ApplyPreservesDistance | include/transform.hpp:160-163 | a rigid transform preserves squared distances between points |
| Transforms.ApplyQuarterTurnExample | test/test_transform.cpp:116-121 | the transform at `{1,2,3}` turned a quarter about z maps `{4,5,6}` to `{-4,6,9}` |
| Transforms.InverseQuarterTurnExample | test/test_transform.cpp:103-111 | the inverse of that transform has position `{-2,1,-3}` and rotation `(c, {0,0,−c})` |
| Transforms.ApplyHeading | include/transform.hpp:160-163 | a rotation about z by `(c, s)` at `p` maps `(k,0,0)` to `p + k·(c²−s², 2cs, 0)` |
| Transforms.InverseHeading | test/test_transform.cpp:123-138 | for `c² + s² = 1`, the inverse maps the point `k` units along the heading back to `(k,0,0)`; this covers the 30° case (`k = 1` at the origin) and the 45° case (`k = √2` at `{1,1,0}`) |

## Left out

- The streaming helpers `operator<<` (include/transform.hpp:55-58, 123-126, 166-169) are text output only.
- Quaternions.FromAxisAngle: the model takes the half-angle cosine `c` and sine `s` as parameters instead of calling `std::cos` and `std::sin` on `angle/2`. Facts that need a true angle require `c² + s² = 1`. The concrete angles appear through their algebraic properties: `c = s` and `c² = 1/2` for the quarter turn, and the heading `(c²−s², 2cs)` for the 30° and 45° cases.
- Quaternions.Norm2: `norm()` is modelled as its square, because `std::sqrt` is not part of the model. "Unit norm" is stated as squared norm 1, which is equivalent.
- IEEE `double` rounding, NaN and infinity are not modelled; arithmetic is exact over `real`. The test tolerances (`VecEqual`, `EPS`, `ASSERT_NEAR`) therefore become exact equalities.
- The googletest harness (test/test_transform.cpp) is not modelled. Its concrete cases are stated as lemmas.
- Vectors.Dot: the fact that `a·a = 0` holds only for the zero vector is not stated. Only symmetry, linearity and preservation under rotation are.
