/** Three-component vector arithmetic used by the rod interaction routines.
    Floats are modelled as mathematical reals. The Euclidean norm is not
    computed here: the routines receive it as a function `absolute`, of which
    only `IsNorm` is known (non-negative, and its square is the dot product of
    the vector with itself). */
module VectorMath {

  type Vec3 = v: seq<real> | |v| == 3 witness [0.0, 0.0, 0.0]

  const Zero: Vec3 := [0.0, 0.0, 0.0]

  function Add(u: Vec3, v: Vec3): Vec3 {
    [u[0] + v[0], u[1] + v[1], u[2] + v[2]]
  }

  function Sub(u: Vec3, v: Vec3): Vec3 {
    [u[0] - v[0], u[1] - v[1], u[2] - v[2]]
  }

  function Scale(s: real, v: Vec3): Vec3 {
    [s * v[0], s * v[1], s * v[2]]
  }

  function Dot(u: Vec3, v: Vec3): real {
    u[0] * v[0] + u[1] * v[1] + u[2] * v[2]
  }

  function Cross(u: Vec3, v: Vec3): Vec3 {
    [u[1] * v[2] - u[2] * v[1], u[2] * v[0] - u[0] * v[2], u[0] * v[1] - u[1] * v[0]]
  }

  /** Squared Euclidean length. */
  function SqNorm(v: Vec3): (r: real)
    ensures r >= 0.0
  {
    Dot(v, v)
  }

  /** The point `r + t p` of the line through `r` along `p`. */
  function PointAt(r: Vec3, p: Vec3, t: real): Vec3 {
    Add(r, Scale(t, p))
  }

  ghost predicate OnLine(c: Vec3, r: Vec3, p: Vec3) {
    exists s :: c == PointAt(r, p, s)
  }

  /** `c` lies on the closed segment from `r` to `r + p`. */
  ghost predicate OnSegment(c: Vec3, r: Vec3, p: Vec3) {
    exists t :: 0.0 <= t <= 1.0 && c == PointAt(r, p, t)
  }

  /** What the routines may assume of the norm they are given. */
  ghost predicate IsNorm(absolute: Vec3 -> real) {
    forall v: Vec3 :: absolute(v) >= 0.0 && absolute(v) * absolute(v) == Dot(v, v)
  }

  /** `v / |v|`, the normalisation the solver performs. */
  function Unit(absolute: Vec3 -> real, v: Vec3): Vec3
    requires absolute(v) != 0.0
  {
    Scale(1.0 / absolute(v), v)
  }

  function Min(x: real, y: real): real {
    if x <= y then x else y
  }

  function Min3(x: real, y: real, z: real): real {
    Min(x, Min(y, z))
  }

  function Min4(w: real, x: real, y: real, z: real): (m: real)
    ensures m <= w && m <= x && m <= y && m <= z
    ensures m == w || m == x || m == y || m == z
  {
    Min(w, Min3(x, y, z))
  }

  // ---------------------------------------------------------------------
  // Facts about squares and the abstract norm

  lemma MulPos(a: real, b: real)
    requires a > 0.0 && b > 0.0
    ensures a * b > 0.0
  {
  }

  lemma SquareStrict(x: real, y: real)
    requires 0.0 <= x < y
    ensures x * x < y * y
  {
    MulPos(y - x, y + x);
    assert y * y - x * x == (y - x) * (y + x);
  }

  /** On non-negative reals squaring preserves and reflects strict order. */
  lemma SquareLess(x: real, y: real)
    requires x >= 0.0 && y >= 0.0
    ensures x < y <==> x * x < y * y
  {
    if x < y {
      SquareStrict(x, y);
    } else if y < x {
      SquareStrict(y, x);
    }
  }

  /** Two vectors are equal when their components are. */
  lemma Componentwise(u: Vec3, v: Vec3)
    requires u[0] == v[0] && u[1] == v[1] && u[2] == v[2]
    ensures u == v
  {
  }

  /** On non-negative reals a square determines its root. */
  lemma SquareInjective(x: real, y: real)
    requires x >= 0.0 && y >= 0.0 && x * x == y * y
    ensures x == y
  {
    SquareLess(x, y);
    SquareLess(y, x);
  }

  /** Comparing two norms is comparing the squared lengths. */
  lemma NormLess(absolute: Vec3 -> real, u: Vec3, v: Vec3)
    requires IsNorm(absolute)
    ensures absolute(u) < absolute(v) <==> SqNorm(u) < SqNorm(v)
  {
    SquareLess(absolute(u), absolute(v));
  }

  /** A vector of non-zero norm has a positive squared length. */
  lemma NormPositive(absolute: Vec3 -> real, v: Vec3)
    requires IsNorm(absolute) && absolute(v) != 0.0
    ensures SqNorm(v) > 0.0
  {
    SquareStrict(0.0, absolute(v));
  }

  /** The zero vector has norm zero. */
  lemma NormOfZero(absolute: Vec3 -> real)
    requires IsNorm(absolute)
    ensures absolute(Zero) == 0.0
  {
    assert absolute(Zero) * absolute(Zero) == 0.0 * 0.0;
    SquareInjective(absolute(Zero), 0.0);
  }

  /** Reversing a difference keeps its norm. */
  lemma NormSwap(absolute: Vec3 -> real, u: Vec3, v: Vec3)
    requires IsNorm(absolute)
    ensures absolute(Sub(u, v)) == absolute(Sub(v, u))
  {
    SqNormSwap(u, v);
    SquareInjective(absolute(Sub(u, v)), absolute(Sub(v, u)));
  }

  /** Reversing a difference keeps its length. */
  lemma SqNormSwap(u: Vec3, v: Vec3)
    ensures SqNorm(Sub(u, v)) == SqNorm(Sub(v, u))
  {
  }

  /** The norm is positively homogeneous: `|t v| = t |v|` for `t >= 0`. */
  lemma NormScale(absolute: Vec3 -> real, t: real, v: Vec3)
    requires IsNorm(absolute) && t >= 0.0
    ensures absolute(Scale(t, v)) == t * absolute(v)
  {
    var a := absolute(v);
    calc {
      absolute(Scale(t, v)) * absolute(Scale(t, v));
      Dot(Scale(t, v), Scale(t, v));
      t * t * Dot(v, v);
      (t * a) * (t * a);
    }
    SquareInjective(absolute(Scale(t, v)), t * a);
  }

  /** Distance from the start of a line to one of its points. */
  lemma DotAlongLine(r: Vec3, p: Vec3, s: real)
    ensures Sub(PointAt(r, p, s), r) == Scale(s, p)
    ensures Dot(p, Sub(PointAt(r, p, s), r)) == s * SqNorm(p)
  {
    assert Sub(PointAt(r, p, s), r) == Scale(s, p);
  }

  /** Dot product with a combination of two vectors. */
  lemma DotCombination(u: Vec3, s: real, a: Vec3, t: real, b: Vec3)
    ensures Dot(u, Sub(Scale(s, a), Scale(t, b))) == s * Dot(u, a) - t * Dot(u, b)
  {
  }

  /** The double cross products `a x (a x b)` and `b x (a x b)` expanded
      ("BAC-CAB"). */
  lemma DoubleCross(a: Vec3, b: Vec3)
    ensures Cross(a, Cross(a, b)) == Sub(Scale(Dot(a, b), a), Scale(Dot(a, a), b))
    ensures Cross(b, Cross(a, b)) == Sub(Scale(Dot(b, b), a), Scale(Dot(a, b), b))
  {
    DoubleCrossOwn(a, b, Dot(a, b), Dot(a, a));
    DoubleCrossOther(a, b, Dot(a, b), Dot(b, b));
  }

  lemma DoubleCrossOwn(a: Vec3, b: Vec3, ab: real, aa: real)
    requires ab == Dot(a, b) && aa == Dot(a, a)
    ensures Cross(a, Cross(a, b)) == Sub(Scale(ab, a), Scale(aa, b))
  {
    DoubleCrossFirst(a[0], a[1], a[2], b[0], b[1], b[2], ab, aa);
    DoubleCrossFirst(a[1], a[2], a[0], b[1], b[2], b[0], ab, aa);
    DoubleCrossFirst(a[2], a[0], a[1], b[2], b[0], b[1], ab, aa);
    Componentwise(Cross(a, Cross(a, b)), Sub(Scale(ab, a), Scale(aa, b)));
  }

  lemma DoubleCrossOther(a: Vec3, b: Vec3, ab: real, bb: real)
    requires ab == Dot(a, b) && bb == Dot(b, b)
    ensures Cross(b, Cross(a, b)) == Sub(Scale(bb, a), Scale(ab, b))
  {
    DoubleCrossFirst(b[0], b[1], b[2], a[0], a[1], a[2], ab, bb);
    DoubleCrossFirst(b[1], b[2], b[0], a[1], a[2], a[0], ab, bb);
    DoubleCrossFirst(b[2], b[0], b[1], a[2], a[0], a[1], ab, bb);
    Componentwise(Cross(b, Cross(a, b)), Sub(Scale(bb, a), Scale(ab, b)));
  }

  /** First component of `x x (x x y)` and, with the roles swapped, of
      `y x (x x y)`; `d` is `x . y` and `n` is `x . x`. */
  lemma DoubleCrossFirst(x0: real, x1: real, x2: real, y0: real, y1: real, y2: real, d: real, n: real)
    requires d == x0 * y0 + x1 * y1 + x2 * y2 && n == x0 * x0 + x1 * x1 + x2 * x2
    ensures x1 * (x0 * y1 - x1 * y0) - x2 * (x2 * y0 - x0 * y2) == d * x0 - n * y0
    ensures x1 * (y0 * x1 - y1 * x0) - x2 * (y2 * x0 - y0 * x2) == n * y0 - d * x0
  {
  }

  /** Lagrange's identity: `|a x b|^2 = |a|^2 |b|^2 - (a . b)^2`. */
  lemma Lagrange(a: Vec3, b: Vec3)
    ensures SqNorm(Cross(a, b)) == Dot(a, a) * Dot(b, b) - Dot(a, b) * Dot(a, b)
  {
    LagrangeComponents(a[0], a[1], a[2], b[0], b[1], b[2]);
  }

  lemma LagrangeComponents(x0: real, x1: real, x2: real, y0: real, y1: real, y2: real)
    ensures (x1 * y2 - x2 * y1) * (x1 * y2 - x2 * y1) + (x2 * y0 - x0 * y2) * (x2 * y0 - x0 * y2)
            + (x0 * y1 - x1 * y0) * (x0 * y1 - x1 * y0)
            == (x0 * x0 + x1 * x1 + x2 * x2) * (y0 * y0 + y1 * y1 + y2 * y2)
               - (x0 * y0 + x1 * y1 + x2 * y2) * (x0 * y0 + x1 * y1 + x2 * y2)
  {
  }

  /** Pythagoras: orthogonal vectors add their squared lengths. */
  lemma Pythagoras(u: Vec3, v: Vec3)
    requires Dot(u, v) == 0.0
    ensures SqNorm(Add(u, v)) == SqNorm(u) + SqNorm(v)
  {
  }

  // ---------------------------------------------------------------------
  // The `vec3d(n){...}` loops of the source, on three-element buffers

  /** `out[n] = u[n] - v[n]` for each n; `out` may be `u` or `v`. */
  method Difference(u: array<real>, v: array<real>, out: array<real>)
    requires u.Length == 3 && v.Length == 3 && out.Length == 3
    modifies out
    ensures out[..] == Sub(old(u[..]), old(v[..]))
    ensures out != u && out != v ==> out[..] == Sub(u[..], v[..])
  {
    for n := 0 to 3
      invariant forall j :: 0 <= j < n ==> out[j] == old(u[j]) - old(v[j])
      invariant forall j :: n <= j < 3 ==> u[j] == old(u[j]) && v[j] == old(v[j])
    {
      out[n] := u[n] - v[n];
    }
  }

  /** `out[n] = u[n] + v[n]` for each n; `out` may be `u` or `v`. */
  method Sum(u: array<real>, v: array<real>, out: array<real>)
    requires u.Length == 3 && v.Length == 3 && out.Length == 3
    modifies out
    ensures out[..] == Add(old(u[..]), old(v[..]))
    ensures out != u && out != v ==> out[..] == Add(u[..], v[..])
  {
    for n := 0 to 3
      invariant forall j :: 0 <= j < n ==> out[j] == old(u[j]) + old(v[j])
      invariant forall j :: n <= j < 3 ==> u[j] == old(u[j]) && v[j] == old(v[j])
    {
      out[n] := u[n] + v[n];
    }
  }

  /** `dst[n] = src[n]` for each n; `dst` may be `src`. */
  method Copy(src: array<real>, dst: array<real>)
    requires src.Length == 3 && dst.Length == 3
    modifies dst
    ensures dst[..] == old(src[..])
  {
    for n := 0 to 3
      invariant forall j :: 0 <= j < n ==> dst[j] == old(src[j])
      invariant forall j :: n <= j < 3 ==> src[j] == old(src[j])
    {
      dst[n] := src[n];
    }
  }

  /** `out[n] = v[n] / |v|` for each n, as a product with the reciprocal. */
  method Normalize(absolute: Vec3 -> real, v: array<real>, out: array<real>)
    requires v.Length == 3 && out.Length == 3 && v != out
    requires absolute(v[..]) != 0.0
    modifies out
    ensures out[..] == Unit(absolute, v[..])
  {
    var inverse := 1.0 / absolute(v[..]);
    for n := 0 to 3
      invariant forall j :: 0 <= j < n ==> out[j] == inverse * v[j]
    {
      out[n] := inverse * v[n];
    }
    ghost var w := Unit(absolute, v[..]);
    assert w[0] == out[0] && w[1] == out[1] && w[2] == out[2];
    Componentwise(out[..], w);
  }

  /** `out = u x v`. */
  method CrossProduct(u: array<real>, v: array<real>, out: array<real>)
    requires u.Length == 3 && v.Length == 3 && out.Length == 3
    requires out != u && out != v
    modifies out
    ensures out[..] == Cross(u[..], v[..])
  {
    out[0] := u[1] * v[2] - u[2] * v[1];
    out[1] := u[2] * v[0] - u[0] * v[2];
    out[2] := u[0] * v[1] - u[1] * v[0];
    ghost var w := Cross(u[..], v[..]);
    assert w[0] == out[0] && w[1] == out[1] && w[2] == out[2];
    Componentwise(out[..], w);
  }
}
