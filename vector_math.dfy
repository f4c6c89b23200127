/** The 2D vector library of src/vector.c.
 *
 *  `float` is modelled as `real`: every identity below is exact over the reals and only
 *  approximate for the IEEE single-precision arithmetic the C code performs. The
 *  transcendental functions of <math.h> that the library calls (sqrtf, acosf, cosf, sinf)
 *  and the constant M_PI cannot be computed here, so they are fields of a `MathLib`
 *  value that the functions take as a parameter; a property that depends on them says
 *  so in its `requires` (for instance `SqrtSound(lib)`).
 */
module VectorMath {

  /** `Vector2D` of include/vector.h. */
  datatype Vec = Vec(x: real, y: real)

  const Zero: Vec := Vec(0.0, 0.0)

  type PositiveReal = r: real | r > 0.0 witness 1.0

  /** sqrtf, acosf, cosf, sinf and M_PI. */
  datatype MathLib = MathLib(
    sqrt: real -> real,
    acos: real -> real,
    cos: real -> real,
    sin: real -> real,
    pi: PositiveReal)

  /** `lib.sqrt` returns the nonnegative square root of every nonnegative argument. */
  ghost predicate SqrtSound(lib: MathLib) {
    forall t: real :: 0.0 <= t ==> 0.0 <= lib.sqrt(t) && lib.sqrt(t) * lib.sqrt(t) == t
  }

  /** `cosf` and `sinf` satisfy the Pythagorean identity at the angle `rad`. */
  ghost predicate UnitCircleAt(lib: MathLib, rad: real) {
    lib.cos(rad) * lib.cos(rad) + lib.sin(rad) * lib.sin(rad) == 1.0
  }

  function Abs(r: real): (a: real)
    ensures 0.0 <= a && (a == r || a == -r)
  {
    if r < 0.0 then -r else r
  }

  // ---------------------------------------------------------------------------
  // The operations, in the order of src/vector.c
  // ---------------------------------------------------------------------------

  function CreateVector(x: real, y: real): (r: Vec)
    ensures r.x == x && r.y == y
  {
    Vec(x, y)
  }

  function AdditionVector(a: Vec, b: Vec): Vec {
    Vec(a.x + b.x, a.y + b.y)
  }

  function SubtractVector(a: Vec, b: Vec): Vec {
    Vec(a.x - b.x, a.y - b.y)
  }

  function LinearCombination(a: Vec, scalarA: real, b: Vec, scalarB: real): Vec {
    Vec(scalarA * a.x + scalarB * b.x, scalarA * a.y + scalarB * b.y)
  }

  /** Unit vector in the direction of `v`; the zero vector when the norm is exactly 0. */
  function NormalizeVector(lib: MathLib, v: Vec): (r: Vec)
    ensures CrossProduct2D(r, v) == 0.0
  {
    var norm := NormVector(lib, v);
    if norm == 0.0 then
      CreateVector(0.0, 0.0)
    else
      var r := Vec(v.x / norm, v.y / norm);
      assert r.x * v.y == (v.x * v.y) / norm && r.y * v.x == (v.y * v.x) / norm;
      r
  }

  function DotProduct(a: Vec, b: Vec): real {
    a.x * b.x + a.y * b.y
  }

  function ScaleVector(v: Vec, scalar: real): Vec {
    Vec(v.x * scalar, v.y * scalar)
  }

  /** Result of `angleBetwen`: a number of degrees, or the NaN that `acosf` yields when the
   *  quotient divides by a zero norm product. */
  datatype AngleValue = Degrees(value: real) | NaN

  function AngleBetween(lib: MathLib, a: Vec, b: Vec): AngleValue {
    var denominator := NormVector(lib, a) * NormVector(lib, b);
    if denominator == 0.0 then
      NaN
    else
      Degrees(lib.acos(DotProduct(a, b) / denominator) * (180.0 / lib.pi))
  }

  function NormVector(lib: MathLib, v: Vec): real {
    lib.sqrt(v.x * v.x + v.y * v.y)
  }

  /** Scalar 2D cross product: positive when `b` lies to the left of `a`, negative to the
   *  right, zero when they are collinear. */
  function CrossProduct2D(a: Vec, b: Vec): real {
    a.x * b.y - a.y * b.x
  }

  /** Orthogonal projection of `a` onto the line of `b`; the zero vector when `b` is zero. */
  function ProjectVector(a: Vec, b: Vec): (r: Vec)
    ensures CrossProduct2D(r, b) == 0.0
  {
    var dot := DotProduct(a, b);
    var normSq := b.x * b.x + b.y * b.y;
    if normSq == 0.0 then
      CreateVector(0.0, 0.0)
    else
      var scale := dot / normSq;
      CrossScaledSelf(b, scale);
      ScaleVector(b, scale)
  }

  /** Degrees to radians, as `rotateVector` converts them: multiplied by M_PI / 180. */
  function Radians(lib: MathLib, angleDegrees: real): real {
    angleDegrees * (lib.pi / 180.0)
  }

  /** Counter-clockwise rotation by `angleDegrees`. */
  function RotateVector(lib: MathLib, v: Vec, angleDegrees: real): Vec {
    var angleRad := Radians(lib, angleDegrees);
    var cosA := lib.cos(angleRad);
    var sinA := lib.sin(angleRad);
    Vec(v.x * cosA - v.y * sinA, v.x * sinA + v.y * cosA)
  }

  function DistanceVector(lib: MathLib, a: Vec, b: Vec): real {
    NormVector(lib, SubtractVector(a, b))
  }

  /** `a` turned a quarter turn counter-clockwise: the normal on the left of `a`. */
  function LeftNormal(a: Vec): Vec {
    Vec(-a.y, a.x)
  }

  // ---------------------------------------------------------------------------
  // Algebra of addition, subtraction, scaling and linear combination
  // ---------------------------------------------------------------------------

  lemma AdditionCommutative(a: Vec, b: Vec)
    ensures AdditionVector(a, b) == AdditionVector(b, a)
  {
  }

  lemma AdditionAssociative(a: Vec, b: Vec, c: Vec)
    ensures AdditionVector(AdditionVector(a, b), c) == AdditionVector(a, AdditionVector(b, c))
  {
  }

  lemma AdditionIdentity(v: Vec)
    ensures AdditionVector(v, Zero) == v
  {
  }

  /** Subtraction undoes addition and addition undoes subtraction. */
  lemma SubtractionInvertsAddition(a: Vec, b: Vec)
    ensures SubtractVector(AdditionVector(a, b), b) == a
    ensures AdditionVector(SubtractVector(a, b), b) == a
  {
  }

  lemma SubtractionAntisymmetric(a: Vec, b: Vec)
    ensures SubtractVector(a, b) == ScaleVector(SubtractVector(b, a), -1.0)
  {
  }

  lemma LinearCombinationIsSumOfScaled(a: Vec, scalarA: real, b: Vec, scalarB: real)
    ensures LinearCombination(a, scalarA, b, scalarB)
         == AdditionVector(ScaleVector(a, scalarA), ScaleVector(b, scalarB))
  {
  }

  lemma ScaleComposes(v: Vec, j: real, k: real)
    ensures ScaleVector(ScaleVector(v, j), k) == ScaleVector(v, j * k)
  {
  }

  lemma ScaleByOneAndZero(v: Vec)
    ensures ScaleVector(v, 1.0) == v
    ensures ScaleVector(v, 0.0) == Zero
  {
  }

  lemma ScaleDistributes(a: Vec, b: Vec, k: real)
    ensures ScaleVector(AdditionVector(a, b), k) == AdditionVector(ScaleVector(a, k), ScaleVector(b, k))
  {
  }

  // ---------------------------------------------------------------------------
  // Dot and cross products
  // ---------------------------------------------------------------------------

  lemma DotSymmetric(a: Vec, b: Vec)
    ensures DotProduct(a, b) == DotProduct(b, a)
  {
  }

  lemma DotBilinear(a: Vec, b: Vec, c: Vec, k: real)
    ensures DotProduct(ScaleVector(a, k), b) == k * DotProduct(a, b)
    ensures DotProduct(AdditionVector(a, b), c) == DotProduct(a, c) + DotProduct(b, c)
  {
  }

  /** Sign of a product from the signs of its factors. The product is passed as `p` so that
   *  callers can name a square by a local variable and reason linearly about it. */
  lemma ProductSign(u: real, w: real, p: real)
    requires p == u * w
    ensures (0.0 < u && 0.0 < w) || (u < 0.0 && w < 0.0) ==> 0.0 < p
    ensures u == w ==> !(p < 0.0)
  {
    if 0.0 < u && 0.0 < w {
    } else if u < 0.0 && w < 0.0 {
      assert p == (-u) * (-w);
    }
  }

  /** A square is nonnegative, and positive unless its root is 0. */
  lemma SquareSign(r: real, sq: real)
    requires sq == r * r
    ensures !(sq < 0.0)
    ensures r < 0.0 || 0.0 < r ==> 0.0 < sq
  {
    ProductSign(r, r, sq);
  }

  /** The squared length `x*x + y*y` is zero exactly for the zero vector. */
  lemma DotSelfZeroIff(v: Vec)
    ensures DotProduct(v, v) == 0.0 <==> v == Zero
  {
    var xx, yy := v.x * v.x, v.y * v.y;
    SquareSign(v.x, xx);
    SquareSign(v.y, yy);
    assert DotProduct(v, v) == xx + yy;
  }

  /** The squared length is nonnegative, and positive for every nonzero vector. */
  lemma DotSelfPositive(v: Vec)
    ensures 0.0 <= DotProduct(v, v)
    ensures v != Zero ==> 0.0 < DotProduct(v, v)
  {
    var xx, yy := v.x * v.x, v.y * v.y;
    SquareSign(v.x, xx);
    SquareSign(v.y, yy);
    assert DotProduct(v, v) == xx + yy;
  }

  lemma CrossAntisymmetric(a: Vec, b: Vec)
    ensures CrossProduct2D(a, b) == -CrossProduct2D(b, a)
  {
  }

  lemma CrossSelfZero(v: Vec)
    ensures CrossProduct2D(v, v) == 0.0
  {
  }

  lemma CrossScaledSelf(v: Vec, k: real)
    ensures CrossProduct2D(ScaleVector(v, k), v) == 0.0
    ensures CrossProduct2D(v, ScaleVector(v, k)) == 0.0
  {
    assert v.x * (v.y * k) == (v.x * v.y) * k;
    assert v.y * (v.x * k) == (v.x * v.y) * k;
  }

  /** The sign convention: the cross product is the component of `b` along the left normal of
   *  `a`, so it is positive when `b` points to the left of `a` and negative to the right. */
  lemma CrossIsLeftComponent(a: Vec, b: Vec)
    ensures CrossProduct2D(a, b) == DotProduct(LeftNormal(a), b)
    ensures CrossProduct2D(a, LeftNormal(a)) == DotProduct(a, a)
  {
  }

  /** For a nonzero `a`, the cross product is zero exactly when `b` lies on the line of `a`,
   *  that is when projecting `b` onto `a` gives `b` back. */
  lemma CrossZeroIffCollinear(a: Vec, b: Vec)
    requires a != Zero
    ensures CrossProduct2D(a, b) == 0.0 <==> ProjectVector(b, a) == b
  {
    DotSelfZeroIff(a);
    var normSq := a.x * a.x + a.y * a.y;
    var dot := DotProduct(b, a);
    var k := dot / normSq;
    assert ProjectVector(b, a) == ScaleVector(a, k);
    if CrossProduct2D(a, b) == 0.0 {
      assert a.x * b.y == a.y * b.x;
      calc {
        a.x * dot;
        a.x * a.x * b.x + a.x * a.y * b.y;
        a.x * a.x * b.x + a.y * (a.x * b.y);
        a.x * a.x * b.x + a.y * (a.y * b.x);
        b.x * normSq;
      }
      calc {
        a.y * dot;
        a.y * a.x * b.x + a.y * a.y * b.y;
        a.x * (a.y * b.x) + a.y * a.y * b.y;
        a.x * (a.x * b.y) + a.y * a.y * b.y;
        b.y * normSq;
      }
      DivideBack(a.x, dot, b.x, normSq);
      DivideBack(a.y, dot, b.y, normSq);
    } else {
      if ProjectVector(b, a) == b {
        CrossScaledSelf(a, k);
        assert false;
      }
    }
  }

  /** `u * (p / q) == w` whenever `u * p == w * q` and `q` is nonzero. */
  lemma DivideBack(u: real, p: real, w: real, q: real)
    requires q != 0.0
    requires u * p == w * q
    ensures u * (p / q) == w
  {
    calc {
      u * (p / q);
      (u * p) / q;
      (w * q) / q;
      w;
    }
  }

  // ---------------------------------------------------------------------------
  // Projection
  // ---------------------------------------------------------------------------

  /** The zero-vector guard: projecting onto the zero vector gives the zero vector. */
  lemma ProjectOntoZero(a: Vec)
    ensures ProjectVector(a, Zero) == Zero
  {
  }

  /** For a nonzero `b` the projection is `b` scaled by `dot(a, b) / |b|^2`. */
  lemma ProjectIsScaledB(a: Vec, b: Vec)
    requires b != Zero
    ensures DotProduct(b, b) != 0.0
         && ProjectVector(a, b) == ScaleVector(b, DotProduct(a, b) / DotProduct(b, b))
  {
    DotSelfZeroIff(b);
  }

  /** The "shadow on the line of b": what remains of `a` after projection is orthogonal to `b`. */
  lemma ProjectResidualOrthogonal(a: Vec, b: Vec)
    ensures DotProduct(SubtractVector(a, ProjectVector(a, b)), b) == 0.0
  {
    if b == Zero {
      ProjectOntoZero(a);
    } else {
      ProjectIsScaledB(a, b);
      var k := DotProduct(a, b) / DotProduct(b, b);
      ResidualExpansion(a, b, k);
      assert k * DotProduct(b, b) == DotProduct(a, b);
    }
  }

  /** `(a - k b) . b == a . b - k (b . b)`. */
  lemma ResidualExpansion(a: Vec, b: Vec, k: real)
    ensures DotProduct(SubtractVector(a, ScaleVector(b, k)), b)
         == DotProduct(a, b) - k * (b.x * b.x + b.y * b.y)
  {
  }

  lemma ProjectIdempotent(a: Vec, b: Vec)
    ensures ProjectVector(ProjectVector(a, b), b) == ProjectVector(a, b)
  {
    if b == Zero {
      ProjectOntoZero(a);
      ProjectOntoZero(Zero);
    } else {
      ProjectIsScaledB(a, b);
      var normSq := DotProduct(b, b);
      var k := DotProduct(a, b) / normSq;
      var p := ScaleVector(b, k);
      ProjectIsScaledB(p, b);
      assert DotProduct(p, b) == k * normSq;
      assert DotProduct(p, b) / normSq == k;
    }
  }

  /** The projection is the only vector on the line of a nonzero `b` whose residual is
   *  orthogonal to `b`. */
  lemma ProjectUnique(a: Vec, b: Vec, k: real)
    requires b != Zero
    requires DotProduct(SubtractVector(a, ScaleVector(b, k)), b) == 0.0
    ensures ScaleVector(b, k) == ProjectVector(a, b)
  {
    DotSelfZeroIff(b);
    var normSq := b.x * b.x + b.y * b.y;
    calc {
      0.0;
      DotProduct(SubtractVector(a, ScaleVector(b, k)), b);
      (a.x - b.x * k) * b.x + (a.y - b.y * k) * b.y;
      DotProduct(a, b) - k * normSq;
    }
    assert k == DotProduct(a, b) / normSq;
  }

  // ---------------------------------------------------------------------------
  // Norm, normalization, distance and angle (assuming a sound square root)
  // ---------------------------------------------------------------------------

  /** Two nonnegative reals with the same square are equal. */
  lemma RootUnique(r: real, s: real)
    requires 0.0 <= r && 0.0 <= s
    requires r * r == s * s
    ensures r == s
  {
    assert (r - s) * (r + s) == r * r - s * s;
    if r + s == 0.0 {
    } else {
      assert r - s == 0.0;
    }
  }

  lemma NormSquared(lib: MathLib, v: Vec)
    requires SqrtSound(lib)
    ensures 0.0 <= NormVector(lib, v)
    ensures NormVector(lib, v) * NormVector(lib, v) == DotProduct(v, v)
  {
    DotSelfZeroIff(v);
  }

  /** A sound square root is zero exactly at zero. */
  lemma SqrtZeroIff(lib: MathLib, t: real)
    requires SqrtSound(lib)
    requires 0.0 <= t
    ensures lib.sqrt(t) == 0.0 <==> t == 0.0
  {
    var r := lib.sqrt(t);
    var rr := r * r;
    SquareSign(r, rr);
  }

  lemma NormZeroIff(lib: MathLib, v: Vec)
    requires SqrtSound(lib)
    ensures NormVector(lib, v) == 0.0 <==> v == Zero
  {
    if v == Zero {
      SqrtZeroIff(lib, 0.0);
    } else {
      DotSelfPositive(v);
      SqrtZeroIff(lib, DotProduct(v, v));
    }
  }

  /** Scaling by `k` multiplies the length by `|k|`. */
  lemma NormScale(lib: MathLib, v: Vec, k: real)
    requires SqrtSound(lib)
    ensures NormVector(lib, ScaleVector(v, k)) == Abs(k) * NormVector(lib, v)
  {
    var n := NormVector(lib, v);
    var m := NormVector(lib, ScaleVector(v, k));
    NormSquared(lib, v);
    NormSquared(lib, ScaleVector(v, k));
    assert DotProduct(ScaleVector(v, k), ScaleVector(v, k)) == (k * k) * DotProduct(v, v);
    assert Abs(k) * Abs(k) == k * k;
    assert (Abs(k) * n) * (Abs(k) * n) == (Abs(k) * Abs(k)) * (n * n);
    RootUnique(m, Abs(k) * n);
  }

  lemma SqrtOfOne(lib: MathLib)
    requires SqrtSound(lib)
    ensures lib.sqrt(1.0) == 1.0
  {
    RootUnique(lib.sqrt(1.0), 1.0);
  }

  /** The guard of `normalizeVector`, without any assumption on sqrtf: a zero norm gives the
   *  zero vector, any other norm gives `v` scaled by its reciprocal. */
  lemma NormalizeGuard(lib: MathLib, v: Vec)
    ensures NormVector(lib, v) == 0.0 ==> NormalizeVector(lib, v) == Zero
    ensures NormVector(lib, v) != 0.0 ==>
              NormalizeVector(lib, v) == ScaleVector(v, 1.0 / NormVector(lib, v))
  {
  }

  lemma NormalizeZero(lib: MathLib)
    requires SqrtSound(lib)
    ensures NormalizeVector(lib, Zero) == Zero
  {
    NormZeroIff(lib, Zero);
  }

  /** A nonzero vector normalizes to a vector of length 1 pointing the same way. */
  lemma NormalizeUnit(lib: MathLib, v: Vec)
    requires SqrtSound(lib)
    requires v != Zero
    ensures NormVector(lib, NormalizeVector(lib, v)) == 1.0
    ensures DotProduct(NormalizeVector(lib, v), v) > 0.0
  {
    var n := NormVector(lib, v);
    NormSquared(lib, v);
    NormZeroIff(lib, v);
    DotSelfZeroIff(v);
    assert 0.0 < n;
    var u := NormalizeVector(lib, v);
    assert u == Vec(v.x / n, v.y / n);
    calc {
      DotProduct(u, u);
      (v.x / n) * (v.x / n) + (v.y / n) * (v.y / n);
      (v.x * v.x + v.y * v.y) / (n * n);
      1.0;
    }
    SqrtOfOne(lib);
    calc {
      DotProduct(u, v);
      (v.x / n) * v.x + (v.y / n) * v.y;
      (v.x * v.x + v.y * v.y) / n;
    }
  }

  lemma NormalizeZeroIff(lib: MathLib, v: Vec)
    requires SqrtSound(lib)
    ensures NormalizeVector(lib, v) == Zero <==> v == Zero
  {
    NormZeroIff(lib, v);
    if v != Zero {
      NormalizeUnit(lib, v);
      SqrtOfOne(lib);
      if NormalizeVector(lib, v) == Zero {
        NormZeroIff(lib, Zero);
        assert false;
      }
    }
  }

  /** The distance is the same in both directions (whatever sqrtf returns). */
  lemma DistanceSymmetric(lib: MathLib, a: Vec, b: Vec)
    ensures DistanceVector(lib, a, b) == DistanceVector(lib, b, a)
  {
    var d := SubtractVector(a, b);
    var e := SubtractVector(b, a);
    assert e == ScaleVector(d, -1.0);
    assert DotProduct(e, e) == DotProduct(d, d);
    NormOfSquaredLength(lib, d, e);
  }

  /** The norm depends on a vector only through its squared length. */
  lemma NormOfSquaredLength(lib: MathLib, u: Vec, w: Vec)
    requires DotProduct(u, u) == DotProduct(w, w)
    ensures NormVector(lib, u) == NormVector(lib, w)
  {
    assert u.x * u.x + u.y * u.y == w.x * w.x + w.y * w.y;
  }

  lemma DistanceZeroIff(lib: MathLib, a: Vec, b: Vec)
    requires SqrtSound(lib)
    ensures DistanceVector(lib, a, b) == 0.0 <==> a == b
  {
    NormZeroIff(lib, SubtractVector(a, b));
  }

  /** Shifting both vectors by the same amount does not change their distance. */
  lemma DistanceTranslationInvariant(lib: MathLib, a: Vec, b: Vec, t: Vec)
    ensures DistanceVector(lib, AdditionVector(a, t), AdditionVector(b, t)) == DistanceVector(lib, a, b)
  {
    assert SubtractVector(AdditionVector(a, t), AdditionVector(b, t)) == SubtractVector(a, b);
  }

  lemma AngleSymmetric(lib: MathLib, a: Vec, b: Vec)
    ensures AngleBetween(lib, a, b) == AngleBetween(lib, b, a)
  {
    DotSymmetric(a, b);
  }

  /** The angle is NaN exactly when one of the two vectors is the zero vector. */
  lemma AngleNaNIffZeroInput(lib: MathLib, a: Vec, b: Vec)
    requires SqrtSound(lib)
    ensures AngleBetween(lib, a, b) == NaN <==> a == Zero || b == Zero
  {
    NormZeroIff(lib, a);
    NormZeroIff(lib, b);
    var na, nb := NormVector(lib, a), NormVector(lib, b);
    assert na * nb == 0.0 <==> na == 0.0 || nb == 0.0;
  }

  // ---------------------------------------------------------------------------
  // Rotation (stated only relative to properties of cosf and sinf)
  // ---------------------------------------------------------------------------

  lemma RotateByZero(lib: MathLib, v: Vec)
    requires lib.cos(Radians(lib, 0.0)) == 1.0 && lib.sin(Radians(lib, 0.0)) == 0.0
    ensures RotateVector(lib, v, 0.0) == v
  {
  }

  /** Rotation keeps the squared length when cosf and sinf lie on the unit circle. */
  lemma RotatePreservesLength(lib: MathLib, v: Vec, angleDegrees: real)
    requires UnitCircleAt(lib, Radians(lib, angleDegrees))
    ensures var r := RotateVector(lib, v, angleDegrees); DotProduct(r, r) == DotProduct(v, v)
  {
    var rad := Radians(lib, angleDegrees);
    var c, s := lib.cos(rad), lib.sin(rad);
    var r := RotateVector(lib, v, angleDegrees);
    assert r == Vec(v.x * c - v.y * s, v.x * s + v.y * c);
    calc {
      DotProduct(r, r);
      (v.x * c - v.y * s) * (v.x * c - v.y * s) + (v.x * s + v.y * c) * (v.x * s + v.y * c);
      v.x * v.x * (c * c + s * s) + v.y * v.y * (c * c + s * s);
      v.x * v.x + v.y * v.y;
    }
  }

  /** Rotation is linear: it commutes with scaling and with addition. */
  lemma RotateLinear(lib: MathLib, a: Vec, b: Vec, k: real, angleDegrees: real)
    ensures RotateVector(lib, ScaleVector(a, k), angleDegrees) == ScaleVector(RotateVector(lib, a, angleDegrees), k)
    ensures RotateVector(lib, AdditionVector(a, b), angleDegrees)
         == AdditionVector(RotateVector(lib, a, angleDegrees), RotateVector(lib, b, angleDegrees))
  {
    var rad := Radians(lib, angleDegrees);
    var c, s := lib.cos(rad), lib.sin(rad);
    assert (a.x * k) * c - (a.y * k) * s == (a.x * c - a.y * s) * k;
    assert (a.x * k) * s + (a.y * k) * c == (a.x * s + a.y * c) * k;
  }

  /** A quarter turn counter-clockwise gives the left normal, which ties the sign convention of
   *  the cross product to the rotation direction. */
  lemma RotateQuarterTurn(lib: MathLib, v: Vec)
    requires lib.cos(Radians(lib, 90.0)) == 0.0 && lib.sin(Radians(lib, 90.0)) == 1.0
    ensures RotateVector(lib, v, 90.0) == LeftNormal(v)
    ensures CrossProduct2D(v, RotateVector(lib, v, 90.0)) == DotProduct(v, v)
  {
    CrossIsLeftComponent(v, v);
  }
}
