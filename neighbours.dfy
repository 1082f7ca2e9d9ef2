/** Registration of a pair of rod elements as neighbours
    (`assign_neighbours_to_elements` in src/rod_interactions.cpp). When the
    shortest interaction vector is shorter than the sum of the two radii, each
    element's list gains one 7-scalar record: the point on itself, the point on
    the other element, and the other element's radius.

    The C++ function takes both lists and the `in_range` flag by value, so its
    caller never sees what it appends. The model describes the function's own
    copies: it returns the lists and the flag as they stand at its end. */
module NeighbourLists {
  import opened VectorMath
  import opened DistanceCorrection
  import opened ShortestDistance

  /** The number of scalars in one neighbour record. */
  const RecordSize: nat := 7

  /** One neighbour record, as seen from the element that holds it. */
  function Record(own: Vec3, other: Vec3, otherRadius: real): seq<real> {
    own + other + [otherRadius]
  }

  /** The two elements touch: the interaction vector is strictly shorter than
      the sum of the radii. */
  predicate InRange(absolute: Vec3 -> real, ca: Vec3, cb: Vec3, radiusA: real, radiusB: real) {
    absolute(Sub(cb, ca)) < radiusA + radiusB
  }

  /** The two lists and the flag at the end of the function. */
  datatype Registration = Registration(listA: seq<real>, listB: seq<real>, inRange: bool)

  /** What the function computes, given the lists it starts from. */
  function Assign(absolute: Vec3 -> real, pa: Vec3, pb: Vec3, ra: Vec3, rb: Vec3, radiusA: real, radiusB: real,
                  listA: seq<real>, listB: seq<real>): Registration
    requires Crossing(absolute, pa, pb)
  {
    var c := ShortestPoints(absolute, ra, rb, pa, pb);
    if InRange(absolute, c.a, c.b, radiusA, radiusB) then
      Registration(listA + Record(c.a, c.b, radiusB), listB + Record(c.b, c.a, radiusA), true)
    else
      Registration(listA, listB, false)
  }

  // ---------------------------------------------------------------------
  // Properties

  /** A record holds seven scalars: its own point, the other point and the
      other radius, in that order. */
  lemma RecordLayout(own: Vec3, other: Vec3, otherRadius: real)
    ensures var r := Record(own, other, otherRadius);
            |r| == RecordSize && r[0..3] == own && r[3..6] == other && r[6] == otherRadius
  {
  }

  /** The lists only grow: what was there stays, and either both lists gain
      exactly one record or neither changes. */
  lemma AssignAppendsOnly(absolute: Vec3 -> real, pa: Vec3, pb: Vec3, ra: Vec3, rb: Vec3, radiusA: real, radiusB: real,
                          listA: seq<real>, listB: seq<real>)
    requires Crossing(absolute, pa, pb)
    ensures var g := Assign(absolute, pa, pb, ra, rb, radiusA, radiusB, listA, listB);
            var added := if g.inRange then RecordSize else 0;
            g.listA[..|listA|] == listA && g.listB[..|listB|] == listB &&
            |g.listA| == |listA| + added && |g.listB| == |listB| + added
  {
  }

  /** The two new records mirror each other: each holds its own point first,
      and the other element's radius last. */
  lemma AssignMirrored(absolute: Vec3 -> real, pa: Vec3, pb: Vec3, ra: Vec3, rb: Vec3, radiusA: real, radiusB: real,
                       listA: seq<real>, listB: seq<real>)
    requires Crossing(absolute, pa, pb)
    ensures var g := Assign(absolute, pa, pb, ra, rb, radiusA, radiusB, listA, listB);
            var c := ShortestPoints(absolute, ra, rb, pa, pb);
            var i, j := |listA|, |listB|;
            g.inRange ==>
              g.listA[i..i + 3] == c.a && g.listA[i + 3..i + 6] == c.b && g.listA[i + 6] == radiusB &&
              g.listB[j..j + 3] == c.b && g.listB[j + 3..j + 6] == c.a && g.listB[j + 6] == radiusA &&
              g.listA[i..i + 3] == g.listB[j + 3..j + 6] && g.listA[i + 3..i + 6] == g.listB[j..j + 3]
  {
    var g := Assign(absolute, pa, pb, ra, rb, radiusA, radiusB, listA, listB);
    var c := ShortestPoints(absolute, ra, rb, pa, pb);
    if g.inRange {
      var i, j := |listA|, |listB|;
      assert g.listA[i..] == Record(c.a, c.b, radiusB);
      assert g.listB[j..] == Record(c.b, c.a, radiusA);
      assert g.listA[i..i + 3] == g.listA[i..][0..3];
      assert g.listA[i + 3..i + 6] == g.listA[i..][3..6];
      assert g.listB[j..j + 3] == g.listB[j..][0..3];
      assert g.listB[j + 3..j + 6] == g.listB[j..][3..6];
    }
  }

  /** The flag is exactly the strict test; elements that just touch (the
      separation equals the sum of the radii) are not neighbours. */
  lemma AssignFlag(absolute: Vec3 -> real, pa: Vec3, pb: Vec3, ra: Vec3, rb: Vec3, radiusA: real, radiusB: real,
                   listA: seq<real>, listB: seq<real>)
    requires Crossing(absolute, pa, pb)
    ensures var g := Assign(absolute, pa, pb, ra, rb, radiusA, radiusB, listA, listB);
            var c := ShortestPoints(absolute, ra, rb, pa, pb);
            (g.inRange <==> absolute(Sub(c.b, c.a)) < radiusA + radiusB) &&
            (absolute(Sub(c.b, c.a)) == radiusA + radiusB ==> !g.inRange && g.listA == listA && g.listB == listB)
  {
  }

  // ---------------------------------------------------------------------
  // The function on buffers

  /** `assign_neighbours_to_elements`, returning its own copies of the two
      lists and of the flag. */
  method AssignNeighboursToElements(absolute: Vec3 -> real, pa: array<real>, pb: array<real>,
                                    ra: array<real>, rb: array<real>, radiusA: real, radiusB: real,
                                    neighboursA: seq<real>, neighboursB: seq<real>)
    returns (listA: seq<real>, listB: seq<real>, inRange: bool)
    requires IsNorm(absolute)
    requires pa.Length == 3 && pb.Length == 3 && ra.Length == 3 && rb.Length == 3
    requires Crossing(absolute, pa[..], pb[..])
    ensures Registration(listA, listB, inRange)
            == Assign(absolute, pa[..], pb[..], ra[..], rb[..], radiusA, radiusB, neighboursA, neighboursB)
  {
    var ca := new real[3];
    var cb := new real[3];
    GetShortestDistanceToRod(absolute, pa, pb, ra, rb, ca, cb);
    ghost var c := ShortestPoints(absolute, ra[..], rb[..], pa[..], pb[..]);
    assert ca[..] == c.a && cb[..] == c.b;
    listA, listB, inRange := Register(absolute, ca, cb, radiusA, radiusB, neighboursA, neighboursB);
  }

  /** The test and the appends, from line 279 on, for the points in `ca` and `cb`. */
  method Register(absolute: Vec3 -> real, ca: array<real>, cb: array<real>, radiusA: real, radiusB: real,
                  neighboursA: seq<real>, neighboursB: seq<real>)
    returns (listA: seq<real>, listB: seq<real>, inRange: bool)
    requires ca.Length == 3 && cb.Length == 3
    ensures inRange == InRange(absolute, ca[..], cb[..], radiusA, radiusB)
    ensures listA == if inRange then neighboursA + Record(ca[..], cb[..], radiusB) else neighboursA
    ensures listB == if inRange then neighboursB + Record(cb[..], ca[..], radiusA) else neighboursB
  {
    var cab := new real[3];
    Difference(cb, ca, cab);
    listA, listB := neighboursA, neighboursB;
    inRange := false;
    if absolute(cab[..]) < radiusA + radiusB {
      inRange := true;
      listA := PushPoint(listA, ca);
      listA := PushPoint(listA, cb);
      listA := listA + [radiusB];
      listB := PushPoint(listB, cb);
      listB := PushPoint(listB, ca);
      listB := listB + [radiusA];
    }
  }

  /** `vec3d(n){list.push_back(c[n]);}`: appends the three components of `c`. */
  method PushPoint(list: seq<real>, c: array<real>) returns (r: seq<real>)
    requires c.Length == 3
    ensures r == list + c[..]
  {
    r := list;
    for n := 0 to 3
      invariant r == list + c[..n]
    {
      r := r + [c[n]];
    }
  }

  // ---------------------------------------------------------------------
  // Worked cases

  /** The geometry shared by the two worked cases: element a along x from the
      origin, element b along z from (0.5, 1, 0). The interaction vector runs
      from (0.5, 0, 0) to (0.5, 1, 0) and has length 1. */
  lemma SkewPair(absolute: Vec3 -> real)
    requires IsNorm(absolute)
    ensures var ca, cb := [0.5, 0.0, 0.0], [0.5, 1.0, 0.0];
            Crossing(absolute, AxisX, AxisZ) &&
            ShortestPoints(absolute, Zero, [0.5, 1.0, 0.0], AxisX, AxisZ) == Points(ca, cb) &&
            absolute(Sub(cb, ca)) == 1.0
  {
    var ra, rb, pa, pb := Zero, [0.5, 1.0, 0.0], AxisX, AxisZ;
    var ca, cb := [0.5, 0.0, 0.0], [0.5, 1.0, 0.0];
    NormIs(absolute, pa, 1.0);
    NormIs(absolute, pb, 1.0);
    assert Unit(absolute, pa) == AxisX;
    assert Unit(absolute, pb) == AxisZ;
    AxesXZClosest(ra, rb);
    assert LineClosest(absolute, ra, rb, pa, pb) == Points(ca, cb);
    assert Projection(ca, ra, pa) == 0.5;
    assert Projection(cb, rb, pb) == 0.0;
    assert Stage1(ca, cb, ra, rb, pa, pb) == Points(ca, cb);
    SkewPairStage2(absolute);
    assert Sub(cb, ca) == AxisY;
    NormIs(absolute, AxisY, 1.0);
  }

  /** Stage 2 on `SkewPair`: it fires (1 > 0.99 * 1) and picks d3, moving
      `c_b` to b's start node, where it already is. */
  lemma SkewPairStage2(absolute: Vec3 -> real)
    requires IsNorm(absolute)
    ensures var ca, cb := [0.5, 0.0, 0.0], [0.5, 1.0, 0.0];
            Stage2(absolute, ca, cb, Zero, cb, AxisX, AxisZ) == Points(ca, cb)
  {
    var ca, cb := [0.5, 0.0, 0.0], [0.5, 1.0, 0.0];
    SkewPairLengths();
    Stage2BySquares(absolute, ca, cb, Zero, cb, AxisX, AxisZ);
  }

  /** What stage 2 compares in `SkewPair`: squared separation 1 against
      squared node distances 1.25, 1.25, 1 and 2. */
  lemma SkewPairLengths()
    ensures var ca, cb := [0.5, 0.0, 0.0], [0.5, 1.0, 0.0];
            SqNorm(Sub(cb, ca)) == 1.0 && SquaredDistances(ca, cb, Zero, cb, AxisX, AxisZ) == (1.25, 1.25, 1.0, 2.0)
  {
    var ca, cb := [0.5, 0.0, 0.0], [0.5, 1.0, 0.0];
    assert Sub(cb, Zero) == cb;
    assert Sub(cb, Add(Zero, AxisX)) == [-0.5, 1.0, 0.0];
    assert Sub(ca, cb) == [0.0, -1.0, 0.0];
    assert Sub(ca, Add(cb, AxisZ)) == [0.0, -1.0, -1.0];
  }

  /** With radii 0.6 the elements are neighbours: each list gains one mirrored
      record. */
  lemma InRangeRegistration(absolute: Vec3 -> real, listA: seq<real>, listB: seq<real>)
    requires IsNorm(absolute)
    ensures Crossing(absolute, AxisX, AxisZ)
    ensures var ca, cb := [0.5, 0.0, 0.0], [0.5, 1.0, 0.0];
            Assign(absolute, AxisX, AxisZ, Zero, cb, 0.6, 0.6, listA, listB)
            == Registration(listA + [0.5, 0.0, 0.0, 0.5, 1.0, 0.0, 0.6], listB + [0.5, 1.0, 0.0, 0.5, 0.0, 0.0, 0.6], true)
  {
    SkewPair(absolute);
  }

  /** With radii 0.2 they are not: both lists are returned unchanged. */
  lemma OutOfRangeRegistration(absolute: Vec3 -> real, listA: seq<real>, listB: seq<real>)
    requires IsNorm(absolute)
    ensures Crossing(absolute, AxisX, AxisZ)
    ensures Assign(absolute, AxisX, AxisZ, Zero, [0.5, 1.0, 0.0], 0.2, 0.2, listA, listB)
            == Registration(listA, listB, false)
  {
    SkewPair(absolute);
  }
}
