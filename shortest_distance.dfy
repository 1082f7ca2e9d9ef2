/** The shortest interaction vector between two rod elements
    (`get_shortest_distance_to_rod` in src/rod_interactions.cpp): the closest
    points of the two infinite lines through the elements, followed by the
    two-stage correction of DistanceCorrection. */
module ShortestDistance {
  import opened VectorMath
  import opened DistanceCorrection

  /** The closest points of the line through `ra` along `la` and the line
      through `rb` along `lb`. `n_a = l_a x (l_a x l_b)` is normal to the plane
      holding line a and the common normal; likewise `n_b`. Each point is where
      its line meets the other line's plane. */
  function ClosestOnLines(ra: Vec3, rb: Vec3, la: Vec3, lb: Vec3): Points
    requires Skew(la, lb)
  {
    var w := Cross(la, lb);
    var na, nb := Cross(la, w), Cross(lb, w);
    Points(Add(ra, Scale(Dot(Sub(rb, ra), nb) / Dot(la, nb), la)),
           Add(rb, Scale(Dot(Sub(ra, rb), na) / Dot(lb, na), lb)))
  }

  /** Both divisors of `ClosestOnLines` are non-zero. */
  predicate Skew(la: Vec3, lb: Vec3) {
    var w := Cross(la, lb);
    Dot(la, Cross(lb, w)) != 0.0 && Dot(lb, Cross(la, w)) != 0.0
  }

  /** What the routine needs of its input: both elements have non-zero length
      and, once normalised, their directions are not parallel. */
  predicate Crossing(absolute: Vec3 -> real, pa: Vec3, pb: Vec3) {
    absolute(pa) != 0.0 && absolute(pb) != 0.0 && Skew(Unit(absolute, pa), Unit(absolute, pb))
  }

  /** The uncorrected points, on the unit directions of the elements. */
  function LineClosest(absolute: Vec3 -> real, ra: Vec3, rb: Vec3, pa: Vec3, pb: Vec3): Points
    requires Crossing(absolute, pa, pb)
  {
    ClosestOnLines(ra, rb, Unit(absolute, pa), Unit(absolute, pb))
  }

  /** The routine as written: closest points of the lines, then the corrector. */
  function ShortestPoints(absolute: Vec3 -> real, ra: Vec3, rb: Vec3, pa: Vec3, pb: Vec3): Points
    requires Crossing(absolute, pa, pb)
  {
    var c := LineClosest(absolute, ra, rb, pa, pb);
    Correct(absolute, c.a, c.b, ra, rb, pa, pb)
  }

  /** The routine with the line-145 test and the line-167 trigger repaired
      (see `CorrectIntended`). */
  function ShortestPointsIntended(absolute: Vec3 -> real, ra: Vec3, rb: Vec3, pa: Vec3, pb: Vec3): Points
    requires Crossing(absolute, pa, pb)
  {
    var c := LineClosest(absolute, ra, rb, pa, pb);
    CorrectIntended(absolute, c.a, c.b, ra, rb, pa, pb)
  }

  // ---------------------------------------------------------------------
  // Properties

  /** The divisors are plus and minus `|l_a x l_b|^2`, so `Skew` holds exactly
      when the two directions are not parallel. */
  lemma SkewIffNotParallel(la: Vec3, lb: Vec3)
    ensures Dot(la, Cross(lb, Cross(la, lb))) == SqNorm(Cross(la, lb))
    ensures Dot(lb, Cross(la, Cross(la, lb))) == -SqNorm(Cross(la, lb))
    ensures Skew(la, lb) <==> SqNorm(Cross(la, lb)) > 0.0
  {
    var aa, bb, ab := Dot(la, la), Dot(lb, lb), Dot(la, lb);
    DoubleCross(la, lb);
    Lagrange(la, lb);
    DotCombination(la, bb, la, ab, lb);
    DotCombination(lb, ab, la, aa, lb);
    assert Dot(lb, la) == ab;
  }

  /** The line parameters of the two closest points: `t_a` along `la` and
      `t_b` along `lb`, in terms of the dot products of the inputs. */
  lemma ClosestParameters(ra: Vec3, rb: Vec3, la: Vec3, lb: Vec3)
    requires Skew(la, lb)
    ensures var aa, bb, ab := Dot(la, la), Dot(lb, lb), Dot(la, lb);
            var x, y := Dot(Sub(rb, ra), la), Dot(Sub(rb, ra), lb);
            var w := Cross(la, lb);
            var ta := Dot(Sub(rb, ra), Cross(lb, w)) / Dot(la, Cross(lb, w));
            var tb := Dot(Sub(ra, rb), Cross(la, w)) / Dot(lb, Cross(la, w));
            var d := aa * bb - ab * ab;
            d != 0.0 && ta * d == bb * x - ab * y && tb * d == ab * x - aa * y
  {
    var aa, bb, ab := Dot(la, la), Dot(lb, lb), Dot(la, lb);
    var rab := Sub(rb, ra);
    var x, y := Dot(rab, la), Dot(rab, lb);
    var w := Cross(la, lb);
    var d := aa * bb - ab * ab;
    SkewIffNotParallel(la, lb);
    Lagrange(la, lb);
    assert Dot(la, Cross(lb, w)) == d && Dot(lb, Cross(la, w)) == -d;
    NormalDots(rab, la, lb);
    DotNegate(ra, rb, Cross(la, w));
    Quotient(bb * x - ab * y, d);
    Quotient(aa * y - ab * x, -d);
  }

  /** Dot products with the plane normals `n_b = l_b x w` and `n_a = l_a x w`. */
  lemma NormalDots(v: Vec3, la: Vec3, lb: Vec3)
    ensures var w := Cross(la, lb);
            Dot(v, Cross(lb, w)) == Dot(lb, lb) * Dot(v, la) - Dot(la, lb) * Dot(v, lb) &&
            Dot(v, Cross(la, w)) == Dot(la, lb) * Dot(v, la) - Dot(la, la) * Dot(v, lb)
  {
    DoubleCross(la, lb);
    DotCombination(v, Dot(lb, lb), la, Dot(la, lb), lb);
    DotCombination(v, Dot(la, lb), la, Dot(la, la), lb);
  }

  lemma DotNegate(ra: Vec3, rb: Vec3, v: Vec3)
    ensures Dot(Sub(ra, rb), v) == -Dot(Sub(rb, ra), v)
  {
  }

  lemma Quotient(n: real, d: real)
    requires d != 0.0
    ensures n / d * d == n
  {
  }

  /** The vector joining the two closest points is orthogonal to both
      directions: it lies along the common normal of the two lines. */
  lemma ClosestOnLinesPerpendicular(ra: Vec3, rb: Vec3, la: Vec3, lb: Vec3)
    requires Skew(la, lb)
    ensures var c := ClosestOnLines(ra, rb, la, lb);
            Dot(Sub(c.b, c.a), la) == 0.0 && Dot(Sub(c.b, c.a), lb) == 0.0
  {
    var aa, bb, ab := Dot(la, la), Dot(lb, lb), Dot(la, lb);
    var rab := Sub(rb, ra);
    var x, y := Dot(rab, la), Dot(rab, lb);
    var w := Cross(la, lb);
    var ta := Dot(rab, Cross(lb, w)) / Dot(la, Cross(lb, w));
    var tb := Dot(Sub(ra, rb), Cross(la, w)) / Dot(lb, Cross(la, w));
    ClosestParameters(ra, rb, la, lb);
    var c := ClosestOnLines(ra, rb, la, lb);
    JoinAlong(ra, rb, la, lb, ta, tb, la);
    JoinAlong(ra, rb, la, lb, ta, tb, lb);
    assert Dot(lb, la) == ab;
    PerpendicularAlgebra(aa, bb, ab, x, y, aa * bb - ab * ab, ta, tb);
  }

  /** Dot product of the join `(rb + tb lb) - (ra + ta la)` with `v`. */
  lemma JoinAlong(ra: Vec3, rb: Vec3, la: Vec3, lb: Vec3, ta: real, tb: real, v: Vec3)
    ensures Dot(Sub(Add(rb, Scale(tb, lb)), Add(ra, Scale(ta, la))), v)
            == Dot(Sub(rb, ra), v) + tb * Dot(lb, v) - ta * Dot(la, v)
  {
  }

  /** The scalar core of `ClosestOnLinesPerpendicular`. */
  lemma PerpendicularAlgebra(aa: real, bb: real, ab: real, x: real, y: real, d: real, ta: real, tb: real)
    requires d == aa * bb - ab * ab && d != 0.0
    requires ta * d == bb * x - ab * y && tb * d == ab * x - aa * y
    ensures x + tb * ab - ta * aa == 0.0
    ensures y + tb * bb - ta * ab == 0.0
  {
    assert (x + tb * ab - ta * aa) * d == x * d + ab * (tb * d) - aa * (ta * d);
    assert (y + tb * bb - ta * ab) * d == y * d + bb * (tb * d) - ab * (ta * d);
    ZeroProduct(x + tb * ab - ta * aa, d);
    ZeroProduct(y + tb * bb - ta * ab, d);
  }

  lemma ZeroProduct(u: real, d: real)
    requires d != 0.0 && u * d == 0.0
    ensures u == 0.0
  {
    if u != 0.0 {
      if u > 0.0 && d > 0.0 {
        MulPos(u, d);
      } else if u > 0.0 {
        MulPos(u, -d);
      } else if d > 0.0 {
        MulPos(-u, d);
      } else {
        MulPos(-u, -d);
      }
    }
  }

  /** The closest points of the lines are closest: no pair of points of the
      two lines is nearer. */
  lemma ClosestOnLinesShortest(ra: Vec3, rb: Vec3, la: Vec3, lb: Vec3, s: real, t: real)
    requires Skew(la, lb)
    ensures var c := ClosestOnLines(ra, rb, la, lb);
            SqNorm(Sub(c.b, c.a)) <= SqNorm(Sub(PointAt(rb, lb, t), PointAt(ra, la, s)))
  {
    var c := ClosestOnLines(ra, rb, la, lb);
    var u := Sub(c.b, c.a);
    var w := Cross(la, lb);
    var ta := Dot(Sub(rb, ra), Cross(lb, w)) / Dot(la, Cross(lb, w));
    var tb := Dot(Sub(ra, rb), Cross(la, w)) / Dot(lb, Cross(la, w));
    var v := Sub(Scale(t - tb, lb), Scale(s - ta, la));
    ClosestOnLinesPerpendicular(ra, rb, la, lb);
    DotCombination(u, t - tb, lb, s - ta, la);
    Pythagoras(u, v);
    Componentwise(Add(u, v), Sub(PointAt(rb, lb, t), PointAt(ra, la, s)));
  }

  /** The uncorrected points lie on the lines through the elements. */
  lemma LineClosestOnLines(absolute: Vec3 -> real, ra: Vec3, rb: Vec3, pa: Vec3, pb: Vec3)
    requires Crossing(absolute, pa, pb)
    ensures var c := LineClosest(absolute, ra, rb, pa, pb);
            OnLine(c.a, ra, pa) && OnLine(c.b, rb, pb)
  {
    var la, lb := Unit(absolute, pa), Unit(absolute, pb);
    var w := Cross(la, lb);
    var ta := Dot(Sub(rb, ra), Cross(lb, w)) / Dot(la, Cross(lb, w));
    var tb := Dot(Sub(ra, rb), Cross(la, w)) / Dot(lb, Cross(la, w));
    var c := LineClosest(absolute, ra, rb, pa, pb);
    assert c == ClosestOnLines(ra, rb, la, lb);
    assert c.a == Add(ra, Scale(ta, la));
    assert c.b == Add(rb, Scale(tb, lb));
    var ka, kb := 1.0 / absolute(pa), 1.0 / absolute(pb);
    assert la == Scale(ka, pa) && lb == Scale(kb, pb);
    UnitAlong(ra, pa, ta, ka);
    UnitAlong(rb, pb, tb, kb);
    assert c.a == PointAt(ra, pa, ta * ka);
    assert c.b == PointAt(rb, pb, tb * kb);
  }

  /** `r + t (k p)` is the point at `t k` of the line through `r` along `p`. */
  lemma UnitAlong(r: Vec3, p: Vec3, t: real, k: real)
    ensures Add(r, Scale(t, Scale(k, p))) == PointAt(r, p, t * k)
  {
    Componentwise(Add(r, Scale(t, Scale(k, p))), PointAt(r, p, t * k));
  }

  /** The uncorrected points are closest among all pairs of points of the two
      lines, and the join is orthogonal to both elements. */
  lemma LineClosestShortest(absolute: Vec3 -> real, ra: Vec3, rb: Vec3, pa: Vec3, pb: Vec3, s: real, t: real)
    requires Crossing(absolute, pa, pb)
    ensures var c := LineClosest(absolute, ra, rb, pa, pb);
            SqNorm(Sub(c.b, c.a)) <= SqNorm(Sub(PointAt(rb, pb, t), PointAt(ra, pa, s)))
  {
    var ka, kb := 1.0 / absolute(pa), 1.0 / absolute(pb);
    var la, lb := Unit(absolute, pa), Unit(absolute, pb);
    assert la == Scale(ka, pa) && lb == Scale(kb, pb);
    ReparameterisedPoint(ra, pa, ka, s);
    ReparameterisedPoint(rb, pb, kb, t);
    ClosestOnLinesShortest(ra, rb, la, lb, s / ka, t / kb);
  }

  /** The point at `s` of a line is the point at `s / k` along the direction scaled by `k`. */
  lemma ReparameterisedPoint(r: Vec3, p: Vec3, k: real, s: real)
    requires k != 0.0
    ensures PointAt(r, Scale(k, p), s / k) == PointAt(r, p, s)
  {
    var q := s / k;
    assert q * k == s;
    assert q * (k * p[0]) == s * p[0] && q * (k * p[1]) == s * p[1] && q * (k * p[2]) == s * p[2];
    Componentwise(PointAt(r, Scale(k, p), q), PointAt(r, p, s));
  }

  /** As written, the routine leaves `c_a` on the segment of element a. */
  lemma ShortestKeepsAOnSegment(absolute: Vec3 -> real, ra: Vec3, rb: Vec3, pa: Vec3, pb: Vec3)
    requires IsNorm(absolute) && Crossing(absolute, pa, pb)
    ensures OnSegment(ShortestPoints(absolute, ra, rb, pa, pb).a, ra, pa)
  {
    var c := LineClosest(absolute, ra, rb, pa, pb);
    LineClosestOnLines(absolute, ra, rb, pa, pb);
    var s :| c.a == PointAt(ra, pa, s);
    NormPositive(absolute, pa);
    CorrectKeepsAOnSegment(absolute, c.b, ra, rb, pa, pb, s);
  }

  /** With the line-145 test and the line-167 trigger repaired, both points end
      up on their segments. */
  lemma ShortestIntendedOnSegments(absolute: Vec3 -> real, ra: Vec3, rb: Vec3, pa: Vec3, pb: Vec3)
    requires IsNorm(absolute) && Crossing(absolute, pa, pb)
    ensures var r := ShortestPointsIntended(absolute, ra, rb, pa, pb);
            OnSegment(r.a, ra, pa) && OnSegment(r.b, rb, pb)
  {
    var c := LineClosest(absolute, ra, rb, pa, pb);
    LineClosestOnLines(absolute, ra, rb, pa, pb);
    var s :| c.a == PointAt(ra, pa, s);
    var t :| c.b == PointAt(rb, pb, t);
    NormPositive(absolute, pa);
    NormPositive(absolute, pb);
    CorrectIntendedOnSegments(absolute, ra, rb, pa, pb, s, t);
  }

  // ---------------------------------------------------------------------
  // The routine on buffers

  /** `get_shortest_distance_to_rod`: writes into `ca` and `cb` the end points
      of the shortest interaction vector between the two elements. */
  method GetShortestDistanceToRod(absolute: Vec3 -> real, pa: array<real>, pb: array<real>,
                                  ra: array<real>, rb: array<real>, ca: array<real>, cb: array<real>)
    requires IsNorm(absolute)
    requires pa.Length == 3 && pb.Length == 3 && ra.Length == 3 && rb.Length == 3
    requires ca.Length == 3 && cb.Length == 3
    requires Crossing(absolute, pa[..], pb[..])
    requires ca != ra && ca != rb && ca != pa && ca != pb
    requires cb != ra && cb != rb && cb != pa && cb != pb && ca != cb
    modifies ca, cb
    ensures var r := ShortestPoints(absolute, ra[..], rb[..], pa[..], pb[..]);
            ca[..] == r.a && cb[..] == r.b
  {
    ghost var raS, rbS, paS, pbS := ra[..], rb[..], pa[..], pb[..];
    LineClosestPoints(absolute, pa, pb, ra, rb, ca, cb);
    assert ra[..] == raS && rb[..] == rbS && pa[..] == paS && pb[..] == pbS;
    RodDistanceCorrection(absolute, ca, cb, ra, rb, pa, pb, ca, cb);
  }

  /** The uncorrected points: the two `vec3d` loops of the routine. */
  method LineClosestPoints(absolute: Vec3 -> real, pa: array<real>, pb: array<real>,
                           ra: array<real>, rb: array<real>, ca: array<real>, cb: array<real>)
    requires pa.Length == 3 && pb.Length == 3 && ra.Length == 3 && rb.Length == 3
    requires ca.Length == 3 && cb.Length == 3
    requires Crossing(absolute, pa[..], pb[..])
    requires ca != ra && ca != rb && ca != pa && ca != pb
    requires cb != ra && cb != rb && cb != pa && cb != pb && ca != cb
    modifies ca, cb
    ensures var r := LineClosest(absolute, ra[..], rb[..], pa[..], pb[..]);
            ca[..] == r.a && cb[..] == r.b
  {
    var la, lb, w, na, nb := LineFrame(absolute, pa, pb);
    var rab := new real[3];
    var rba := new real[3];
    Difference(rb, ra, rab);
    Difference(ra, rb, rba);
    MeetPlane(ra, rab, nb, la, ca);
    MeetPlane(rb, rba, na, lb, cb);
  }

  /** `c[n] = r[n] + (d . m) / (l . m) * l[n]` for each n: the point where the
      line through `r` along `l` meets the plane through `r + d` normal to `m`. */
  method MeetPlane(r: array<real>, d: array<real>, m: array<real>, l: array<real>, c: array<real>)
    requires r.Length == 3 && d.Length == 3 && m.Length == 3 && l.Length == 3 && c.Length == 3
    requires c != r && c != d && c != m && c != l
    requires Dot(l[..], m[..]) != 0.0
    modifies c
    ensures c[..] == Add(r[..], Scale(Dot(d[..], m[..]) / Dot(l[..], m[..]), l[..]))
  {
    var step := Scale(Dot(d[..], m[..]) / Dot(l[..], m[..]), l[..]);
    for n := 0 to 3
      invariant forall j :: 0 <= j < n ==> c[j] == r[j] + step[j]
    {
      c[n] := r[n] + step[n];
    }
    Componentwise(c[..], Add(r[..], step));
  }

  /** The directions and plane normals of the two lines, in fresh buffers. */
  method LineFrame(absolute: Vec3 -> real, pa: array<real>, pb: array<real>)
    returns (la: array<real>, lb: array<real>, w: array<real>, na: array<real>, nb: array<real>)
    requires pa.Length == 3 && pb.Length == 3
    requires Crossing(absolute, pa[..], pb[..])
    ensures fresh(la) && fresh(lb) && fresh(w) && fresh(na) && fresh(nb)
    ensures la.Length == 3 && lb.Length == 3 && w.Length == 3 && na.Length == 3 && nb.Length == 3
    ensures la[..] == Unit(absolute, pa[..]) && lb[..] == Unit(absolute, pb[..])
    ensures w[..] == Cross(la[..], lb[..])
    ensures na[..] == Cross(la[..], w[..]) && nb[..] == Cross(lb[..], w[..])
  {
    la := new real[3];
    lb := new real[3];
    w := new real[3];
    na := new real[3];
    nb := new real[3];
    Normalize(absolute, pa, la);
    Normalize(absolute, pb, lb);
    CrossProduct(la, lb, w);
    CrossProduct(la, w, na);
    CrossProduct(lb, w, nb);
  }

  // ---------------------------------------------------------------------
  // Worked cases

  const AxisX: Vec3 := [1.0, 0.0, 0.0]
  const AxisY: Vec3 := [0.0, 1.0, 0.0]
  const AxisZ: Vec3 := [0.0, 0.0, 1.0]

  /** For elements along the x and y axes the closest points of the lines are
      `(rb.x, ra.y, ra.z)` on line a and `(rb.x, ra.y, rb.z)` on line b. */
  lemma AxesClosest(ra: Vec3, rb: Vec3)
    ensures Skew(AxisX, AxisY)
    ensures ClosestOnLines(ra, rb, AxisX, AxisY) == Points([rb[0], ra[1], ra[2]], [rb[0], ra[1], rb[2]])
  {
    var w := Cross(AxisX, AxisY);
    assert w == [0.0, 0.0, 1.0];
    assert Cross(AxisY, w) == AxisX;
    assert Cross(AxisX, w) == [0.0, -1.0, 0.0];
    assert Dot(Sub(rb, ra), AxisX) == rb[0] - ra[0];
    assert Dot(Sub(ra, rb), [0.0, -1.0, 0.0]) == rb[1] - ra[1];
    var c := ClosestOnLines(ra, rb, AxisX, AxisY);
    assert Dot(AxisX, Cross(AxisY, w)) == 1.0;
    assert (rb[0] - ra[0]) / 1.0 == rb[0] - ra[0];
    assert c.a == Add(ra, Scale(rb[0] - ra[0], AxisX));
    assert Dot(AxisY, Cross(AxisX, w)) == -1.0;
    assert (rb[1] - ra[1]) / -1.0 == ra[1] - rb[1];
    assert c.b == Add(rb, Scale(ra[1] - rb[1], AxisY));
    Componentwise(c.a, [rb[0], ra[1], ra[2]]);
    Componentwise(c.b, [rb[0], ra[1], rb[2]]);
  }

  /** For elements along the x and z axes the closest points of the lines are
      `(rb.x, ra.y, ra.z)` on line a and `(rb.x, rb.y, ra.z)` on line b. */
  lemma AxesXZClosest(ra: Vec3, rb: Vec3)
    ensures Skew(AxisX, AxisZ)
    ensures ClosestOnLines(ra, rb, AxisX, AxisZ) == Points([rb[0], ra[1], ra[2]], [rb[0], rb[1], ra[2]])
  {
    var w := Cross(AxisX, AxisZ);
    assert w == [0.0, -1.0, 0.0];
    assert Cross(AxisZ, w) == AxisX;
    assert Cross(AxisX, w) == [0.0, 0.0, -1.0];
    assert Dot(Sub(rb, ra), AxisX) == rb[0] - ra[0];
    assert Dot(Sub(ra, rb), [0.0, 0.0, -1.0]) == rb[2] - ra[2];
    var c := ClosestOnLines(ra, rb, AxisX, AxisZ);
    assert Dot(AxisX, Cross(AxisZ, w)) == 1.0;
    assert (rb[0] - ra[0]) / 1.0 == rb[0] - ra[0];
    assert c.a == Add(ra, Scale(rb[0] - ra[0], AxisX));
    assert Dot(AxisZ, Cross(AxisX, w)) == -1.0;
    assert (rb[2] - ra[2]) / -1.0 == ra[2] - rb[2];
    assert c.b == Add(rb, Scale(ra[2] - rb[2], AxisZ));
    Componentwise(c.a, [rb[0], ra[1], ra[2]]);
    Componentwise(c.b, [rb[0], rb[1], ra[2]]);
  }

  /** The norm of a vector whose squared length is `len * len`, `len >= 0`. */
  lemma NormIs(absolute: Vec3 -> real, v: Vec3, len: real)
    requires IsNorm(absolute) && len >= 0.0 && Dot(v, v) == len * len
    ensures absolute(v) == len
  {
    SquareInjective(absolute(v), len);
  }

  /** Two elements that cross: a unit element along x from the origin and a
      length-2 element along y from (0.5, -1, 0). Both points land on the
      crossing point (0.5, 0, 0), which lies on both segments. */
  lemma CrossingElements(absolute: Vec3 -> real)
    requires IsNorm(absolute)
    ensures var ra, pa, rb, pb := Zero, AxisX, [0.5, -1.0, 0.0], [0.0, 2.0, 0.0];
            var c := [0.5, 0.0, 0.0];
            Crossing(absolute, pa, pb) &&
            ShortestPoints(absolute, ra, rb, pa, pb) == Points(c, c) &&
            c == PointAt(ra, pa, 0.5) && c == PointAt(rb, pb, 0.5)
  {
    var ra, pa, rb, pb := Zero, AxisX, [0.5, -1.0, 0.0], [0.0, 2.0, 0.0];
    var c := [0.5, 0.0, 0.0];
    NormIs(absolute, pa, 1.0);
    NormIs(absolute, pb, 2.0);
    assert Unit(absolute, pa) == AxisX;
    assert Unit(absolute, pb) == AxisY;
    AxesClosest(ra, rb);
    assert LineClosest(absolute, ra, rb, pa, pb) == Points(c, c);
    assert Projection(c, ra, pa) == 0.5;
    assert Projection(c, rb, pb) == 2.0;
    assert Stage1(c, c, ra, rb, pa, pb) == Points(c, c);
    Stage2KeepsCoincident(absolute, c, ra, rb, pa, pb);
  }

  /** The whole routine on the input of `Line145Counterexample`: the lines meet
      at (0.5, 0, 0), 2 beyond the end of element b, and the routine returns
      that point for both ends of the interaction vector. */
  lemma Line145Routine(absolute: Vec3 -> real)
    requires IsNorm(absolute)
    ensures var ra, pa, rb, pb := Zero, AxisX, [0.5, -3.0, 0.0], AxisY;
            var c := [0.5, 0.0, 0.0];
            Crossing(absolute, pa, pb) &&
            ShortestPoints(absolute, ra, rb, pa, pb) == Points(c, c) &&
            !OnSegment(c, rb, pb)
  {
    var ra, pa, rb, pb := Zero, AxisX, [0.5, -3.0, 0.0], AxisY;
    var c := [0.5, 0.0, 0.0];
    NormIs(absolute, pa, 1.0);
    NormIs(absolute, pb, 1.0);
    assert Unit(absolute, pa) == AxisX;
    assert Unit(absolute, pb) == AxisY;
    AxesClosest(ra, rb);
    assert LineClosest(absolute, ra, rb, pa, pb) == Points(c, c);
    Line145Counterexample(absolute);
  }

  /** The whole routine on the elements of `Stage2Lengthens`: the closest
      points of the lines are the two midpoints, 1 apart. The routine as
      written returns a's start node instead, `sqrt(1.01)` from `c_b`; the
      repaired routine keeps the midpoints. */
  lemma RoutineLengthens(absolute: Vec3 -> real)
    requires IsNorm(absolute)
    ensures var ra, pa, rb, pb := [-0.1, 0.0, 0.0], [0.2, 0.0, 0.0], [0.0, 1.0, -0.1], [0.0, 0.0, 0.2];
            var cb := [0.0, 1.0, 0.0];
            Crossing(absolute, pa, pb) &&
            LineClosest(absolute, ra, rb, pa, pb) == Points(Zero, cb) &&
            ShortestPoints(absolute, ra, rb, pa, pb) == Points(ra, cb) &&
            ShortestPointsIntended(absolute, ra, rb, pa, pb) == Points(Zero, cb)
  {
    var ra, pa, rb, pb := [-0.1, 0.0, 0.0], [0.2, 0.0, 0.0], [0.0, 1.0, -0.1], [0.0, 0.0, 0.2];
    var cb := [0.0, 1.0, 0.0];
    NormIs(absolute, pa, 0.2);
    NormIs(absolute, pb, 0.2);
    assert Unit(absolute, pa) == AxisX;
    assert Unit(absolute, pb) == AxisZ;
    AxesXZClosest(ra, rb);
    assert LineClosest(absolute, ra, rb, pa, pb) == Points(Zero, cb);
    Stage2Lengthens(absolute);
    Stage2IntendedKeepsMidpoints(absolute);
  }
}
