/** The two-stage correction that moves the end points `c_a`, `c_b` of an
    interaction vector onto the rod elements it joins (`rod_distance_correction`
    in src/rod_interactions.cpp). Element a runs from `ra` to `ra + pa`,
    element b from `rb` to `rb + pb`.

    The norm is the abstract `absolute` of VectorMath. Stage 1 compares a
    projection with the squared length of the element; stage 2 compares
    norms, and `Stage2BySquares` shows that comparing squared lengths instead
    takes the same branches. */
module DistanceCorrection {
  import opened VectorMath

  /** The two end points of an interaction vector: `a` on element a, `b` on element b. */
  datatype Points = Points(a: Vec3, b: Vec3)

  /** Stage 2 fires when the interaction vector is longer than this fraction
      of the shortest node-to-point distance. */
  const Tolerance: real := 0.99

  /** Projection of `c - r` on the element direction `p`. */
  function Projection(c: Vec3, r: Vec3, p: Vec3): real {
    Dot(p, Sub(c, r))
  }

  /** One stage-1 test: snap to the start node when `lower <= 0`, else to the
      end node when `upper >= |p|^2`, else keep `c`. */
  function Snap(c: Vec3, r: Vec3, p: Vec3, lower: real, upper: real): Vec3 {
    if lower <= 0.0 then r else if upper >= SqNorm(p) then Add(r, p) else c
  }

  /** Stage 1 as the source writes it: the upper test for `c_b` compares the
      projection of `c_a` (not that of `c_b`) with `|p_b|^2`. */
  function Stage1(ca: Vec3, cb: Vec3, ra: Vec3, rb: Vec3, pa: Vec3, pb: Vec3): Points {
    var dotA := Projection(ca, ra, pa);
    var dotB := Projection(cb, rb, pb);
    Points(Snap(ca, ra, pa, dotA, dotA), Snap(cb, rb, pb, dotB, dotA))
  }

  /** Stage 1 with each point compared with its own projection. */
  function Stage1Intended(ca: Vec3, cb: Vec3, ra: Vec3, rb: Vec3, pa: Vec3, pb: Vec3): Points {
    var dotA := Projection(ca, ra, pa);
    var dotB := Projection(cb, rb, pb);
    Points(Snap(ca, ra, pa, dotA, dotA), Snap(cb, rb, pb, dotB, dotB))
  }

  /** The four stage-2 replacements, named after the distance that selects them:
      d1 = c_b - r_a, d2 = c_b - (r_a + p_a), d3 = c_a - r_b, d4 = c_a - (r_b + p_b). */
  datatype Choice = StartA | EndA | StartB | EndB

  /** The cascade of stage 2, on any four comparable lengths. */
  function TieBreak(d1: real, d2: real, d3: real, d4: real): Choice {
    if d1 <= Min3(d2, d3, d4) then StartA
    else if d2 <= Min(d3, d4) then EndA
    else if d3 <= d4 then StartB
    else EndB
  }

  /** Position of a choice in the order d1, d2, d3, d4. */
  function Rank(c: Choice): nat {
    match c
    case StartA => 0
    case EndA => 1
    case StartB => 2
    case EndB => 3
  }

  /** The length that goes with a choice. */
  function Pick(c: Choice, d1: real, d2: real, d3: real, d4: real): real {
    match c
    case StartA => d1
    case EndA => d2
    case StartB => d3
    case EndB => d4
  }

  /** Lengths of d1 = c_b - r_a, d2 = c_b - (r_a + p_a), d3 = c_a - r_b, d4 = c_a - (r_b + p_b). */
  function NodeDistances(absolute: Vec3 -> real, ca: Vec3, cb: Vec3, ra: Vec3, rb: Vec3, pa: Vec3, pb: Vec3): (real, real, real, real) {
    (absolute(Sub(cb, ra)), absolute(Sub(cb, Add(ra, pa))), absolute(Sub(ca, rb)), absolute(Sub(ca, Add(rb, pb))))
  }

  /** Whether stage 2 replaces one of the points: `|c_b - c_a| > 0.99 min(|d1|, .., |d4|)`. */
  predicate Triggered(absolute: Vec3 -> real, ca: Vec3, cb: Vec3, ra: Vec3, rb: Vec3, pa: Vec3, pb: Vec3) {
    var d := NodeDistances(absolute, ca, cb, ra, rb, pa, pb);
    absolute(Sub(cb, ca)) > Tolerance * Min4(d.0, d.1, d.2, d.3)
  }

  /** Stage 2: when triggered, move the point the tie-break selects onto the node. */
  function Stage2(absolute: Vec3 -> real, ca: Vec3, cb: Vec3, ra: Vec3, rb: Vec3, pa: Vec3, pb: Vec3): Points {
    var d := NodeDistances(absolute, ca, cb, ra, rb, pa, pb);
    if Triggered(absolute, ca, cb, ra, rb, pa, pb) then
      match TieBreak(d.0, d.1, d.2, d.3)
      case StartA => Points(ra, cb)
      case EndA => Points(Add(ra, pa), cb)
      case StartB => Points(ca, rb)
      case EndB => Points(ca, Add(rb, pb))
    else
      Points(ca, cb)
  }

  /** The stage-2 trigger with the tolerance on the other side: some node
      distance is shorter than `0.99 |c_b - c_a|`. */
  predicate TriggeredIntended(absolute: Vec3 -> real, ca: Vec3, cb: Vec3, ra: Vec3, rb: Vec3, pa: Vec3, pb: Vec3) {
    var d := NodeDistances(absolute, ca, cb, ra, rb, pa, pb);
    Tolerance * absolute(Sub(cb, ca)) > Min4(d.0, d.1, d.2, d.3)
  }

  /** Stage 2 that leaves an interaction vector alone unless a node distance
      beats it by the tolerance; when it fires it replaces as `Stage2` does. */
  function Stage2Intended(absolute: Vec3 -> real, ca: Vec3, cb: Vec3, ra: Vec3, rb: Vec3, pa: Vec3, pb: Vec3): Points {
    if TriggeredIntended(absolute, ca, cb, ra, rb, pa, pb) then Stage2(absolute, ca, cb, ra, rb, pa, pb)
    else Points(ca, cb)
  }

  /** The corrector as written. */
  function Correct(absolute: Vec3 -> real, ca: Vec3, cb: Vec3, ra: Vec3, rb: Vec3, pa: Vec3, pb: Vec3): Points {
    var s := Stage1(ca, cb, ra, rb, pa, pb);
    Stage2(absolute, s.a, s.b, ra, rb, pa, pb)
  }

  /** The corrector with the stage-1 test of `c_b` and the stage-2 trigger repaired. */
  function CorrectIntended(absolute: Vec3 -> real, ca: Vec3, cb: Vec3, ra: Vec3, rb: Vec3, pa: Vec3, pb: Vec3): Points {
    var s := Stage1Intended(ca, cb, ra, rb, pa, pb);
    Stage2Intended(absolute, s.a, s.b, ra, rb, pa, pb)
  }

  /** Line parameter clamped to the element, [0, 1]. */
  function Clamp01(s: real): (t: real)
    ensures 0.0 <= t <= 1.0
    ensures 0.0 < s < 1.0 ==> t == s
  {
    if s <= 0.0 then 0.0 else if s >= 1.0 then 1.0 else s
  }

  // ---------------------------------------------------------------------
  // Properties of the specification

  /** Stage 2 picks the first of d1, d2, d3, d4 that attains their minimum. */
  lemma TieBreakFirstMinimum(d1: real, d2: real, d3: real, d4: real)
    ensures Pick(TieBreak(d1, d2, d3, d4), d1, d2, d3, d4) == Min4(d1, d2, d3, d4)
    ensures forall c :: Rank(c) < Rank(TieBreak(d1, d2, d3, d4)) ==> Pick(c, d1, d2, d3, d4) > Min4(d1, d2, d3, d4)
  {
  }

  /** Each corrected point is its input, the start node or the end node of its own element. */
  lemma CorrectOutputSet(absolute: Vec3 -> real, ca: Vec3, cb: Vec3, ra: Vec3, rb: Vec3, pa: Vec3, pb: Vec3)
    ensures Correct(absolute, ca, cb, ra, rb, pa, pb).a in {ca, ra, Add(ra, pa)}
    ensures Correct(absolute, ca, cb, ra, rb, pa, pb).b in {cb, rb, Add(rb, pb)}
  {
  }

  /** The start and the end of an element, as points of its line. */
  lemma PointAtEnds(r: Vec3, p: Vec3)
    ensures PointAt(r, p, 0.0) == r
    ensures PointAt(r, p, 1.0) == Add(r, p)
  {
    Componentwise(PointAt(r, p, 0.0), r);
    Componentwise(PointAt(r, p, 1.0), Add(r, p));
  }

  /** For a point of the element's line, the stage-1 test against its own
      projection clamps the line parameter to [0, 1]: the result is the point
      of the closed segment nearest along the line. */
  lemma SnapClamps(r: Vec3, p: Vec3, s: real)
    requires SqNorm(p) > 0.0
    ensures var c := PointAt(r, p, s);
            var dot := Projection(c, r, p);
            Snap(c, r, p, dot, dot) == PointAt(r, p, Clamp01(s))
  {
    SnapParameter(r, p, s);
    PointAtEnds(r, p);
    if s <= 0.0 {
      assert Clamp01(s) == 0.0;
    } else if s >= 1.0 {
      assert Clamp01(s) == 1.0;
    } else {
      assert Clamp01(s) == s;
    }
  }

  /** For a point at parameter `s` of an element's line, the two stage-1 tests
      on its projection are the tests `s <= 0` and `s >= 1`. */
  lemma SnapParameter(r: Vec3, p: Vec3, s: real)
    requires SqNorm(p) > 0.0
    ensures var dot := Projection(PointAt(r, p, s), r, p);
            (dot <= 0.0 <==> s <= 0.0) && (dot >= SqNorm(p) <==> s >= 1.0)
  {
    var dot := Projection(PointAt(r, p, s), r, p);
    assert dot == s * SqNorm(p) by {
      DotAlongLine(r, p, s);
    }
    ScaledParameter(s, SqNorm(p), dot);
  }

  /** Multiplying by a positive `q` keeps `s` on the same side of 0 and of 1. */
  lemma ScaledParameter(s: real, q: real, d: real)
    requires q > 0.0 && d == s * q
    ensures d <= 0.0 <==> s <= 0.0
    ensures d >= q <==> s >= 1.0
  {
    if s > 0.0 {
      MulPos(s, q);
    } else if s < 0.0 {
      MulPos(-s, q);
      assert (-s) * q == -d;
    }
    if s > 1.0 {
      MulPos(s - 1.0, q);
      assert (s - 1.0) * q == d - q;
    } else if s < 1.0 {
      MulPos(1.0 - s, q);
      assert (1.0 - s) * q == q - d;
    }
  }

  /** Stage 2 changes nothing unless triggered. When triggered it keeps one point,
      moves the other onto a node of its own element, and the new interaction
      vector is the shortest of d1, d2, d3, d4. */
  lemma Stage2Scope(absolute: Vec3 -> real, ca: Vec3, cb: Vec3, ra: Vec3, rb: Vec3, pa: Vec3, pb: Vec3)
    requires IsNorm(absolute)
    ensures var r := Stage2(absolute, ca, cb, ra, rb, pa, pb);
            !Triggered(absolute, ca, cb, ra, rb, pa, pb) ==> r == Points(ca, cb)
    ensures var r := Stage2(absolute, ca, cb, ra, rb, pa, pb);
            var d := NodeDistances(absolute, ca, cb, ra, rb, pa, pb);
            Triggered(absolute, ca, cb, ra, rb, pa, pb) ==>
              ((r.b == cb && r.a in {ra, Add(ra, pa)}) || (r.a == ca && r.b in {rb, Add(rb, pb)})) &&
              absolute(Sub(r.b, r.a)) == Min4(d.0, d.1, d.2, d.3)
  {
    var d := NodeDistances(absolute, ca, cb, ra, rb, pa, pb);
    TieBreakFirstMinimum(d.0, d.1, d.2, d.3);
    NormSwap(absolute, ca, rb);
    NormSwap(absolute, ca, Add(rb, pb));
  }

  /** Stage 2 keeps a point of element a's segment on that segment. */
  lemma Stage2KeepsA(absolute: Vec3 -> real, ca: Vec3, cb: Vec3, ra: Vec3, rb: Vec3, pa: Vec3, pb: Vec3)
    requires OnSegment(ca, ra, pa)
    ensures OnSegment(Stage2(absolute, ca, cb, ra, rb, pa, pb).a, ra, pa)
  {
    PointAtEnds(ra, pa);
    var r := Stage2(absolute, ca, cb, ra, rb, pa, pb);
    if r.a == ra {
      assert r.a == PointAt(ra, pa, 0.0);
    } else if r.a == Add(ra, pa) {
      assert r.a == PointAt(ra, pa, 1.0);
    }
  }

  /** Stage 2 keeps a point of element b's segment on that segment. */
  lemma Stage2KeepsB(absolute: Vec3 -> real, ca: Vec3, cb: Vec3, ra: Vec3, rb: Vec3, pa: Vec3, pb: Vec3)
    requires OnSegment(cb, rb, pb)
    ensures OnSegment(Stage2(absolute, ca, cb, ra, rb, pa, pb).b, rb, pb)
  {
    PointAtEnds(rb, pb);
    var r := Stage2(absolute, ca, cb, ra, rb, pa, pb);
    if r.b == rb {
      assert r.b == PointAt(rb, pb, 0.0);
    } else if r.b == Add(rb, pb) {
      assert r.b == PointAt(rb, pb, 1.0);
    }
  }

  /** Stage 2 never separates two coincident points: the interaction vector
      has norm 0, which no node distance undercuts. */
  lemma Stage2KeepsCoincident(absolute: Vec3 -> real, c: Vec3, ra: Vec3, rb: Vec3, pa: Vec3, pb: Vec3)
    requires IsNorm(absolute)
    ensures Stage2(absolute, c, c, ra, rb, pa, pb) == Points(c, c)
  {
    assert Sub(c, c) == Zero;
    NormOfZero(absolute);
    var d := NodeDistances(absolute, c, c, ra, rb, pa, pb);
    assert d.0 >= 0.0 && d.1 >= 0.0 && d.2 >= 0.0 && d.3 >= 0.0;
  }

  /** A `c_a` on the line of element a ends up on the closed segment of element a. */
  lemma CorrectKeepsAOnSegment(absolute: Vec3 -> real, cb: Vec3, ra: Vec3, rb: Vec3, pa: Vec3, pb: Vec3, s: real)
    requires SqNorm(pa) > 0.0
    ensures OnSegment(Correct(absolute, PointAt(ra, pa, s), cb, ra, rb, pa, pb).a, ra, pa)
  {
    var ca := PointAt(ra, pa, s);
    var first := Stage1(ca, cb, ra, rb, pa, pb);
    SnapClamps(ra, pa, s);
    assert first.a == PointAt(ra, pa, Clamp01(s));
    Stage2KeepsA(absolute, first.a, first.b, ra, rb, pa, pb);
  }

  /** With the line-145 test and the line-167 trigger repaired, points on the two
      lines both end up on their segments. */
  lemma CorrectIntendedOnSegments(absolute: Vec3 -> real, ra: Vec3, rb: Vec3, pa: Vec3, pb: Vec3, s: real, t: real)
    requires SqNorm(pa) > 0.0 && SqNorm(pb) > 0.0
    ensures var r := CorrectIntended(absolute, PointAt(ra, pa, s), PointAt(rb, pb, t), ra, rb, pa, pb);
            OnSegment(r.a, ra, pa) && OnSegment(r.b, rb, pb)
  {
    var ca, cb := PointAt(ra, pa, s), PointAt(rb, pb, t);
    var first := Stage1Intended(ca, cb, ra, rb, pa, pb);
    SnapClamps(ra, pa, s);
    SnapClamps(rb, pb, t);
    assert first.a == PointAt(ra, pa, Clamp01(s));
    assert first.b == PointAt(rb, pb, Clamp01(t));
    if TriggeredIntended(absolute, first.a, first.b, ra, rb, pa, pb) {
      Stage2KeepsA(absolute, first.a, first.b, ra, rb, pa, pb);
      Stage2KeepsB(absolute, first.a, first.b, ra, rb, pa, pb);
    }
  }

  /** Line 145 as written: element a is the unit x segment, element b the unit
      y segment from (0.5, -3, 0). The closest points of the two lines are both
      (0.5, 0, 0), which is the point at parameter 3 of b's line. The as-written
      corrector leaves `c_b` there, off b's segment, with separation 0. */
  lemma Line145Counterexample(absolute: Vec3 -> real)
    requires IsNorm(absolute)
    ensures var c, ra, pa, rb, pb := [0.5, 0.0, 0.0], Zero, [1.0, 0.0, 0.0], [0.5, -3.0, 0.0], [0.0, 1.0, 0.0];
            var r := Correct(absolute, c, c, ra, rb, pa, pb);
            c == PointAt(rb, pb, 3.0) && r == Points(c, c) && !OnSegment(r.b, rb, pb)
  {
    var c, ra, pa, rb, pb := [0.5, 0.0, 0.0], Zero, [1.0, 0.0, 0.0], [0.5, -3.0, 0.0], [0.0, 1.0, 0.0];
    assert c == PointAt(rb, pb, 3.0);
    assert Projection(c, ra, pa) == 0.5;
    assert Projection(c, rb, pb) == 3.0;
    assert Stage1(c, c, ra, rb, pa, pb) == Points(c, c);
    Stage2KeepsCoincident(absolute, c, ra, rb, pa, pb);
  }

  /** The other direction of the same defect, in stage 1 alone: `c_b` lies
      inside element b, at parameter 0.5, but `c_a`'s projection 2 passes the
      upper test against `|p_b|^2 = 1`, so `c_b` is snapped to b's end node.
      The repaired test keeps it. */
  lemma Line145SnapsInside()
    ensures var ca, cb, ra, pa, rb, pb := [2.0, 0.0, 0.0], [0.0, 1.5, 0.0], Zero, [1.0, 0.0, 0.0], [0.0, 1.0, 0.0], [0.0, 1.0, 0.0];
            cb == PointAt(rb, pb, 0.5) &&
            Stage1(ca, cb, ra, rb, pa, pb).b == Add(rb, pb) &&
            Stage1Intended(ca, cb, ra, rb, pa, pb).b == cb
  {
    var ca, cb, ra, pa, rb, pb := [2.0, 0.0, 0.0], [0.0, 1.5, 0.0], Zero, [1.0, 0.0, 0.0], [0.0, 1.0, 0.0], [0.0, 1.0, 0.0];
    assert cb == PointAt(rb, pb, 0.5);
    assert Projection(ca, ra, pa) == 2.0;
    assert Projection(cb, rb, pb) == 0.5;
  }

  /** The same input through the repaired corrector: `c_b` moves to b's end node
      (0.5, -2, 0) and the separation is 2, the distance between the segments;
      no node distance is shorter, so stage 2 leaves the pair alone. */
  lemma Line145Repaired(absolute: Vec3 -> real)
    requires IsNorm(absolute)
    ensures var c, ra, pa, rb, pb := [0.5, 0.0, 0.0], Zero, [1.0, 0.0, 0.0], [0.5, -3.0, 0.0], [0.0, 1.0, 0.0];
            var r := CorrectIntended(absolute, c, c, ra, rb, pa, pb);
            r == Points(c, Add(rb, pb)) && SqNorm(Sub(r.b, r.a)) == 4.0
  {
    var c, ra, pa, rb, pb := [0.5, 0.0, 0.0], Zero, [1.0, 0.0, 0.0], [0.5, -3.0, 0.0], [0.0, 1.0, 0.0];
    var end := [0.5, -2.0, 0.0];
    assert Add(rb, pb) == end;
    assert Projection(c, ra, pa) == 0.5;
    assert Projection(c, rb, pb) == 3.0;
    assert Stage1Intended(c, c, ra, rb, pa, pb) == Points(c, end);
    RepairedLengths();
    Stage2IntendedBySquares(absolute, c, end, ra, rb, pa, pb);
  }

  /** What stage 2 compares in `Line145Repaired`: squared separation 4 against
      squared node distances 4.25, 4.25, 9 and 4. */
  lemma RepairedLengths()
    ensures var c, ra, pa, rb, pb := [0.5, 0.0, 0.0], Zero, [1.0, 0.0, 0.0], [0.5, -3.0, 0.0], [0.0, 1.0, 0.0];
            var end := [0.5, -2.0, 0.0];
            SqNorm(Sub(end, c)) == 4.0 && SquaredDistances(c, end, ra, rb, pa, pb) == (4.25, 4.25, 9.0, 4.0)
  {
    var c, ra, pa, rb, pb := [0.5, 0.0, 0.0], Zero, [1.0, 0.0, 0.0], [0.5, -3.0, 0.0], [0.0, 1.0, 0.0];
    var end := [0.5, -2.0, 0.0];
    assert Sub(end, ra) == [0.5, -2.0, 0.0];
    assert Sub(end, Add(ra, pa)) == [-0.5, -2.0, 0.0];
    assert Sub(c, rb) == [0.0, 3.0, 0.0];
    assert Sub(c, Add(rb, pb)) == [0.0, 2.0, 0.0];
  }

  /** The corrector is not idempotent, even on the exact closest points of two
      crossing lines: element a from (-1, 0, 0) along (1, 0, -3) and element b
      from the origin along (0, 0, -1) meet at (0, 0, -3). One pass gives
      ((-1, 0, 0), (0, 0, -1)); a second pass moves `c_b` again, to (0, 0, 0). */
  lemma CorrectorNotIdempotent(absolute: Vec3 -> real)
    requires IsNorm(absolute)
    ensures var ra, pa, rb, pb := [-1.0, 0.0, 0.0], [1.0, 0.0, -3.0], Zero, [0.0, 0.0, -1.0];
            var c := [0.0, 0.0, -3.0];
            var once := Correct(absolute, c, c, ra, rb, pa, pb);
            var twice := Correct(absolute, once.a, once.b, ra, rb, pa, pb);
            c == PointAt(ra, pa, 1.0) && c == PointAt(rb, pb, 3.0) &&
            once == Points(ra, [0.0, 0.0, -1.0]) && twice == Points(ra, Zero)
  {
    var ra, pa, rb, pb := [-1.0, 0.0, 0.0], [1.0, 0.0, -3.0], Zero, [0.0, 0.0, -1.0];
    var c := [0.0, 0.0, -3.0];
    assert c == PointAt(ra, pa, 1.0) && c == PointAt(rb, pb, 3.0);
    FirstPass(absolute);
    SecondPass(absolute);
  }

  /** First pass of `CorrectorNotIdempotent`: stage 1 moves `c_b` to b's end
      node, stage 2 then moves `c_a` to a's start node. */
  lemma FirstPass(absolute: Vec3 -> real)
    requires IsNorm(absolute)
    ensures var ra, pa, rb, pb := [-1.0, 0.0, 0.0], [1.0, 0.0, -3.0], Zero, [0.0, 0.0, -1.0];
            var c := [0.0, 0.0, -3.0];
            Correct(absolute, c, c, ra, rb, pa, pb) == Points(ra, [0.0, 0.0, -1.0])
  {
    var ra, pa, rb, pb := [-1.0, 0.0, 0.0], [1.0, 0.0, -3.0], Zero, [0.0, 0.0, -1.0];
    var c, end := [0.0, 0.0, -3.0], [0.0, 0.0, -1.0];
    assert Stage1(c, c, ra, rb, pa, pb) == Points(c, end);
    FirstPassLengths();
    Stage2BySquares(absolute, c, end, ra, rb, pa, pb);
  }

  /** What stage 2 compares in `FirstPass`: squared separation 4 against
      squared node distances 2, 4, 9 and 4, so it fires and picks a's start. */
  lemma FirstPassLengths()
    ensures var ra, pa, rb, pb := [-1.0, 0.0, 0.0], [1.0, 0.0, -3.0], Zero, [0.0, 0.0, -1.0];
            var c, end := [0.0, 0.0, -3.0], [0.0, 0.0, -1.0];
            SqNorm(Sub(end, c)) == 4.0 && SquaredDistances(c, end, ra, rb, pa, pb) == (2.0, 4.0, 9.0, 4.0)
  {
    var ra, pa, rb, pb := [-1.0, 0.0, 0.0], [1.0, 0.0, -3.0], Zero, [0.0, 0.0, -1.0];
    var c, end := [0.0, 0.0, -3.0], [0.0, 0.0, -1.0];
    assert Sub(end, ra) == [1.0, 0.0, -1.0];
    assert Sub(end, Add(ra, pa)) == [0.0, 0.0, 2.0];
    assert Sub(c, rb) == [0.0, 0.0, -3.0];
    assert Sub(c, Add(rb, pb)) == [0.0, 0.0, -2.0];
  }

  /** Second pass of `CorrectorNotIdempotent`: stage 2 fires again and moves
      `c_b` to b's start node. */
  lemma SecondPass(absolute: Vec3 -> real)
    requires IsNorm(absolute)
    ensures var ra, pa, rb, pb := [-1.0, 0.0, 0.0], [1.0, 0.0, -3.0], Zero, [0.0, 0.0, -1.0];
            Correct(absolute, ra, [0.0, 0.0, -1.0], ra, rb, pa, pb) == Points(ra, Zero)
  {
    var ra, pa, rb, pb := [-1.0, 0.0, 0.0], [1.0, 0.0, -3.0], Zero, [0.0, 0.0, -1.0];
    var end := [0.0, 0.0, -1.0];
    assert Stage1(ra, end, ra, rb, pa, pb) == Points(ra, end);
    SecondPassLengths();
    Stage2BySquares(absolute, ra, end, ra, rb, pa, pb);
  }

  /** What stage 2 compares in `SecondPass`: squared separation 2 against
      squared node distances 2, 4, 1 and 2, so it fires and picks b's start. */
  lemma SecondPassLengths()
    ensures var ra, pa, rb, pb := [-1.0, 0.0, 0.0], [1.0, 0.0, -3.0], Zero, [0.0, 0.0, -1.0];
            var end := [0.0, 0.0, -1.0];
            SqNorm(Sub(end, ra)) == 2.0 && SquaredDistances(ra, end, ra, rb, pa, pb) == (2.0, 4.0, 1.0, 2.0)
  {
    var ra, pa, rb, pb := [-1.0, 0.0, 0.0], [1.0, 0.0, -3.0], Zero, [0.0, 0.0, -1.0];
    var end := [0.0, 0.0, -1.0];
    assert Sub(end, ra) == [1.0, 0.0, -1.0];
    assert Sub(end, Add(ra, pa)) == [0.0, 0.0, 2.0];
    assert Sub(ra, rb) == [-1.0, 0.0, 0.0];
    assert Sub(ra, Add(rb, pb)) == [-1.0, 0.0, 1.0];
  }

  // ---------------------------------------------------------------------
  // Norms against squared lengths

  /** `x1, x2` and `q1, q2` compare the same way. */
  predicate SameOrder(x1: real, x2: real, q1: real, q2: real) {
    (x1 <= x2 <==> q1 <= q2) && (x2 <= x1 <==> q2 <= q1)
  }

  /** Squaring keeps the order of two non-negative lengths. */
  lemma SquaresSameOrder(x1: real, x2: real, q1: real, q2: real)
    requires x1 >= 0.0 && x2 >= 0.0 && q1 == x1 * x1 && q2 == x2 * x2
    ensures SameOrder(x1, x2, q1, q2)
  {
    SquareLess(x1, x2);
    SquareLess(x2, x1);
  }

  /** The tie-break depends only on how its four lengths compare. */
  lemma TieBreakByOrder(x1: real, x2: real, x3: real, x4: real, q1: real, q2: real, q3: real, q4: real)
    requires SameOrder(x1, x2, q1, q2) && SameOrder(x1, x3, q1, q3) && SameOrder(x1, x4, q1, q4)
    requires SameOrder(x2, x3, q2, q3) && SameOrder(x2, x4, q2, q4) && SameOrder(x3, x4, q3, q4)
    ensures TieBreak(x1, x2, x3, x4) == TieBreak(q1, q2, q3, q4)
  {
  }

  /** Squaring non-negative lengths does not change the tie-break, and the
      least square is the square of the least length. */
  lemma TieBreakSquares(x1: real, x2: real, x3: real, x4: real, q1: real, q2: real, q3: real, q4: real)
    requires x1 >= 0.0 && x2 >= 0.0 && x3 >= 0.0 && x4 >= 0.0
    requires q1 == x1 * x1 && q2 == x2 * x2 && q3 == x3 * x3 && q4 == x4 * x4
    ensures TieBreak(x1, x2, x3, x4) == TieBreak(q1, q2, q3, q4)
    ensures Min4(x1, x2, x3, x4) * Min4(x1, x2, x3, x4) == Min4(q1, q2, q3, q4)
  {
    SquaresSameOrder(x1, x2, q1, q2);
    SquaresSameOrder(x1, x3, q1, q3);
    SquaresSameOrder(x1, x4, q1, q4);
    SquaresSameOrder(x2, x3, q2, q3);
    SquaresSameOrder(x2, x4, q2, q4);
    SquaresSameOrder(x3, x4, q3, q4);
    TieBreakByOrder(x1, x2, x3, x4, q1, q2, q3, q4);
    TieBreakFirstMinimum(x1, x2, x3, x4);
    TieBreakFirstMinimum(q1, q2, q3, q4);
    var m := Pick(TieBreak(x1, x2, x3, x4), x1, x2, x3, x4);
    assert Pick(TieBreak(q1, q2, q3, q4), q1, q2, q3, q4) == m * m;
  }

  /** `y > 0.99 m` exactly when `y^2 > 0.99^2 m^2`, for non-negative `y`, `m`. */
  lemma ThresholdSquares(y: real, m: real, qy: real, qm: real)
    requires y >= 0.0 && m >= 0.0 && qy == y * y && qm == m * m
    ensures y > Tolerance * m <==> qy > (Tolerance * Tolerance) * qm
  {
    SquareLess(Tolerance * m, y);
    assert (Tolerance * m) * (Tolerance * m) == (Tolerance * Tolerance) * (m * m);
  }

  /** `0.99 y > m` exactly when `0.99^2 y^2 > m^2`, for non-negative `y`, `m`. */
  lemma ThresholdSquaresIntended(y: real, m: real, qy: real, qm: real)
    requires y >= 0.0 && m >= 0.0 && qy == y * y && qm == m * m
    ensures Tolerance * y > m <==> (Tolerance * Tolerance) * qy > qm
  {
    SquareLess(m, Tolerance * y);
    assert (Tolerance * y) * (Tolerance * y) == (Tolerance * Tolerance) * (y * y);
  }

  /** Both stage-2 triggers, the one as written and the repaired one, decide
      the same on lengths as on their squares. */
  lemma TriggerSquares(y: real, x1: real, x2: real, x3: real, x4: real, qy: real, q1: real, q2: real, q3: real, q4: real)
    requires y >= 0.0 && x1 >= 0.0 && x2 >= 0.0 && x3 >= 0.0 && x4 >= 0.0
    requires qy == y * y && q1 == x1 * x1 && q2 == x2 * x2 && q3 == x3 * x3 && q4 == x4 * x4
    ensures y > Tolerance * Min4(x1, x2, x3, x4) <==> qy > (Tolerance * Tolerance) * Min4(q1, q2, q3, q4)
    ensures Tolerance * y > Min4(x1, x2, x3, x4) <==> (Tolerance * Tolerance) * qy > Min4(q1, q2, q3, q4)
  {
    TieBreakSquares(x1, x2, x3, x4, q1, q2, q3, q4);
    var m := Min4(x1, x2, x3, x4);
    ThresholdSquares(y, m, qy, Min4(q1, q2, q3, q4));
    ThresholdSquaresIntended(y, m, qy, Min4(q1, q2, q3, q4));
  }

  /** Comparing norms, as the source does, decides the stage-2 trigger, and the
      repaired one, as comparing squared lengths does. */
  lemma MagnitudeTrigger(absolute: Vec3 -> real, c: Vec3, e1: Vec3, e2: Vec3, e3: Vec3, e4: Vec3)
    requires IsNorm(absolute)
    ensures absolute(c) > Tolerance * Min4(absolute(e1), absolute(e2), absolute(e3), absolute(e4))
            <==> SqNorm(c) > (Tolerance * Tolerance) * Min4(SqNorm(e1), SqNorm(e2), SqNorm(e3), SqNorm(e4))
    ensures Tolerance * absolute(c) > Min4(absolute(e1), absolute(e2), absolute(e3), absolute(e4))
            <==> (Tolerance * Tolerance) * SqNorm(c) > Min4(SqNorm(e1), SqNorm(e2), SqNorm(e3), SqNorm(e4))
  {
    TriggerSquares(absolute(c), absolute(e1), absolute(e2), absolute(e3), absolute(e4),
                   SqNorm(c), SqNorm(e1), SqNorm(e2), SqNorm(e3), SqNorm(e4));
  }

  /** Comparing norms, as the source does, makes the same stage-2 choice as
      comparing squared lengths does. */
  lemma MagnitudeTieBreak(absolute: Vec3 -> real, e1: Vec3, e2: Vec3, e3: Vec3, e4: Vec3)
    requires IsNorm(absolute)
    ensures TieBreak(absolute(e1), absolute(e2), absolute(e3), absolute(e4))
            == TieBreak(SqNorm(e1), SqNorm(e2), SqNorm(e3), SqNorm(e4))
    ensures Min4(absolute(e1), absolute(e2), absolute(e3), absolute(e4)) >= 0.0
    ensures Min4(absolute(e1), absolute(e2), absolute(e3), absolute(e4)) * Min4(absolute(e1), absolute(e2), absolute(e3), absolute(e4))
            == Min4(SqNorm(e1), SqNorm(e2), SqNorm(e3), SqNorm(e4))
  {
    TieBreakSquares(absolute(e1), absolute(e2), absolute(e3), absolute(e4), SqNorm(e1), SqNorm(e2), SqNorm(e3), SqNorm(e4));
  }

  /** Squared lengths of d1, d2, d3, d4. */
  function SquaredDistances(ca: Vec3, cb: Vec3, ra: Vec3, rb: Vec3, pa: Vec3, pb: Vec3): (real, real, real, real) {
    (SqNorm(Sub(cb, ra)), SqNorm(Sub(cb, Add(ra, pa))), SqNorm(Sub(ca, rb)), SqNorm(Sub(ca, Add(rb, pb))))
  }

  /** Stage 2 decides exactly as it would comparing squared lengths: whatever
      square root the norm uses, the trigger and the choice are the same. */
  lemma Stage2BySquares(absolute: Vec3 -> real, ca: Vec3, cb: Vec3, ra: Vec3, rb: Vec3, pa: Vec3, pb: Vec3)
    requires IsNorm(absolute)
    ensures var q := SquaredDistances(ca, cb, ra, rb, pa, pb);
            Triggered(absolute, ca, cb, ra, rb, pa, pb) <==> SqNorm(Sub(cb, ca)) > (Tolerance * Tolerance) * Min4(q.0, q.1, q.2, q.3)
    ensures var d := NodeDistances(absolute, ca, cb, ra, rb, pa, pb);
            var q := SquaredDistances(ca, cb, ra, rb, pa, pb);
            TieBreak(d.0, d.1, d.2, d.3) == TieBreak(q.0, q.1, q.2, q.3)
  {
    var e1, e2, e3, e4 := Sub(cb, ra), Sub(cb, Add(ra, pa)), Sub(ca, rb), Sub(ca, Add(rb, pb));
    MagnitudeTrigger(absolute, Sub(cb, ca), e1, e2, e3, e4);
    MagnitudeTieBreak(absolute, e1, e2, e3, e4);
  }

  /** The repaired trigger, decided on squared lengths. */
  lemma Stage2IntendedBySquares(absolute: Vec3 -> real, ca: Vec3, cb: Vec3, ra: Vec3, rb: Vec3, pa: Vec3, pb: Vec3)
    requires IsNorm(absolute)
    ensures var q := SquaredDistances(ca, cb, ra, rb, pa, pb);
            TriggeredIntended(absolute, ca, cb, ra, rb, pa, pb) <==> (Tolerance * Tolerance) * SqNorm(Sub(cb, ca)) > Min4(q.0, q.1, q.2, q.3)
    ensures var d := NodeDistances(absolute, ca, cb, ra, rb, pa, pb);
            var q := SquaredDistances(ca, cb, ra, rb, pa, pb);
            TieBreak(d.0, d.1, d.2, d.3) == TieBreak(q.0, q.1, q.2, q.3)
  {
    var e1, e2, e3, e4 := Sub(cb, ra), Sub(cb, Add(ra, pa)), Sub(ca, rb), Sub(ca, Add(rb, pb));
    MagnitudeTrigger(absolute, Sub(cb, ca), e1, e2, e3, e4);
    MagnitudeTieBreak(absolute, e1, e2, e3, e4);
  }

  // ---------------------------------------------------------------------
  // Stage 2 and the length of the interaction vector

  /** What the as-written stage 2 does guarantee: the new interaction vector is
      at most `1 / 0.99` times as long as the old one. It can be longer. */
  lemma Stage2LengthBound(absolute: Vec3 -> real, ca: Vec3, cb: Vec3, ra: Vec3, rb: Vec3, pa: Vec3, pb: Vec3)
    requires IsNorm(absolute)
    ensures var r := Stage2(absolute, ca, cb, ra, rb, pa, pb);
            Tolerance * absolute(Sub(r.b, r.a)) <= absolute(Sub(cb, ca))
  {
    Stage2Scope(absolute, ca, cb, ra, rb, pa, pb);
  }

  /** The repaired stage 2 never lengthens the interaction vector. When it
      fires, one point moves onto a node of its own element and the new length
      is the least node distance, strictly shorter than before; when it does
      not, no node distance beats the old length by the tolerance. */
  lemma Stage2IntendedShortens(absolute: Vec3 -> real, ca: Vec3, cb: Vec3, ra: Vec3, rb: Vec3, pa: Vec3, pb: Vec3)
    requires IsNorm(absolute)
    ensures var r := Stage2Intended(absolute, ca, cb, ra, rb, pa, pb);
            absolute(Sub(r.b, r.a)) <= absolute(Sub(cb, ca))
    ensures var r := Stage2Intended(absolute, ca, cb, ra, rb, pa, pb);
            var d := NodeDistances(absolute, ca, cb, ra, rb, pa, pb);
            TriggeredIntended(absolute, ca, cb, ra, rb, pa, pb) ==>
              ((r.b == cb && r.a in {ra, Add(ra, pa)}) || (r.a == ca && r.b in {rb, Add(rb, pb)})) &&
              absolute(Sub(r.b, r.a)) == Min4(d.0, d.1, d.2, d.3) < absolute(Sub(cb, ca))
    ensures var d := NodeDistances(absolute, ca, cb, ra, rb, pa, pb);
            !TriggeredIntended(absolute, ca, cb, ra, rb, pa, pb) ==>
              Stage2Intended(absolute, ca, cb, ra, rb, pa, pb) == Points(ca, cb) &&
              Tolerance * absolute(Sub(cb, ca)) <= Min4(d.0, d.1, d.2, d.3)
  {
    var d := NodeDistances(absolute, ca, cb, ra, rb, pa, pb);
    var m := Min4(d.0, d.1, d.2, d.3);
    var len := absolute(Sub(cb, ca));
    Stage2Scope(absolute, ca, cb, ra, rb, pa, pb);
    if TriggeredIntended(absolute, ca, cb, ra, rb, pa, pb) {
      assert m >= 0.0 && len >= 0.0;
      assert len >= Tolerance * len > m >= Tolerance * m;
      assert Triggered(absolute, ca, cb, ra, rb, pa, pb);
    }
  }

  /** Stage 2 as written lengthening the interaction vector: elements of
      length 0.2 along x and z, centred at the origin and at (0, 1, 0). Their
      midpoints are 1 apart and stage 1 keeps them; the four node distances are
      all `sqrt(1.01)`, and `1 > 0.99 sqrt(1.01)`, so stage 2 moves `c_a` to a's
      start node and the separation grows to `sqrt(1.01)`. */
  lemma Stage2Lengthens(absolute: Vec3 -> real)
    requires IsNorm(absolute)
    ensures var ca, cb, ra, pa, rb, pb := Zero, [0.0, 1.0, 0.0], [-0.1, 0.0, 0.0], [0.2, 0.0, 0.0], [0.0, 1.0, -0.1], [0.0, 0.0, 0.2];
            var r := Correct(absolute, ca, cb, ra, rb, pa, pb);
            ca == PointAt(ra, pa, 0.5) && cb == PointAt(rb, pb, 0.5) &&
            r == Points(ra, cb) && absolute(Sub(r.b, r.a)) > absolute(Sub(cb, ca))
  {
    var ca, cb, ra, pa, rb, pb := Zero, [0.0, 1.0, 0.0], [-0.1, 0.0, 0.0], [0.2, 0.0, 0.0], [0.0, 1.0, -0.1], [0.0, 0.0, 0.2];
    assert ca == PointAt(ra, pa, 0.5) && cb == PointAt(rb, pb, 0.5);
    assert Projection(ca, ra, pa) == 0.02;
    assert Projection(cb, rb, pb) == 0.02;
    assert Stage1(ca, cb, ra, rb, pa, pb) == Points(ca, cb);
    MidpointLengths();
    Stage2BySquares(absolute, ca, cb, ra, rb, pa, pb);
    NormLess(absolute, Sub(cb, ca), Sub(cb, ra));
  }

  /** On the same input the repaired corrector keeps the two midpoints. */
  lemma Stage2IntendedKeepsMidpoints(absolute: Vec3 -> real)
    requires IsNorm(absolute)
    ensures var ca, cb, ra, pa, rb, pb := Zero, [0.0, 1.0, 0.0], [-0.1, 0.0, 0.0], [0.2, 0.0, 0.0], [0.0, 1.0, -0.1], [0.0, 0.0, 0.2];
            CorrectIntended(absolute, ca, cb, ra, rb, pa, pb) == Points(ca, cb)
  {
    var ca, cb, ra, pa, rb, pb := Zero, [0.0, 1.0, 0.0], [-0.1, 0.0, 0.0], [0.2, 0.0, 0.0], [0.0, 1.0, -0.1], [0.0, 0.0, 0.2];
    assert Projection(ca, ra, pa) == 0.02;
    assert Projection(cb, rb, pb) == 0.02;
    assert Stage1Intended(ca, cb, ra, rb, pa, pb) == Points(ca, cb);
    MidpointLengths();
    Stage2IntendedBySquares(absolute, ca, cb, ra, rb, pa, pb);
  }

  /** What stage 2 compares in `Stage2Lengthens`: squared separation 1 against
      squared node distances of 1.01 each. */
  lemma MidpointLengths()
    ensures var ca, cb, ra, pa, rb, pb := Zero, [0.0, 1.0, 0.0], [-0.1, 0.0, 0.0], [0.2, 0.0, 0.0], [0.0, 1.0, -0.1], [0.0, 0.0, 0.2];
            SqNorm(Sub(cb, ca)) == 1.0 && SqNorm(Sub(cb, ra)) == 1.01 &&
            SquaredDistances(ca, cb, ra, rb, pa, pb) == (1.01, 1.01, 1.01, 1.01)
  {
    var ca, cb, ra, pa, rb, pb := Zero, [0.0, 1.0, 0.0], [-0.1, 0.0, 0.0], [0.2, 0.0, 0.0], [0.0, 1.0, -0.1], [0.0, 0.0, 0.2];
    assert Sub(cb, ca) == cb;
    assert Sub(cb, ra) == [0.1, 1.0, 0.0];
    assert Sub(cb, Add(ra, pa)) == [-0.1, 1.0, 0.0];
    assert Sub(ca, rb) == [0.0, -1.0, 0.1];
    assert Sub(ca, Add(rb, pb)) == [0.0, -1.0, -0.1];
  }

  // ---------------------------------------------------------------------
  // The routine on buffers

  /** One stage-1 test on a buffer: `c` becomes the start node `r` when
      `lower <= 0`, else the end node `rTwo` when `upper >= pSq`. */
  method SnapInPlace(c: array<real>, r: array<real>, rTwo: array<real>, lower: real, upper: real, pSq: real)
    requires c.Length == 3 && r.Length == 3 && rTwo.Length == 3
    requires c != r && c != rTwo
    modifies c
    ensures c[..] == if lower <= 0.0 then r[..] else if upper >= pSq then rTwo[..] else old(c[..])
  {
    if lower <= 0.0 {
      Copy(r, c);
    } else if upper >= pSq {
      Copy(rTwo, c);
    }
  }

  /** Stage 2 on buffers: compares the norms of c_b - c_a and of d1..d4 and,
      when the interaction vector is too long, moves one point onto a node. */
  method ReplaceByShortest(absolute: Vec3 -> real, ca: array<real>, cb: array<real>,
                           ra: array<real>, rb: array<real>, pa: array<real>, pb: array<real>,
                           raTwo: array<real>, rbTwo: array<real>)
    requires IsNorm(absolute)
    requires ca.Length == 3 && cb.Length == 3 && ra.Length == 3 && rb.Length == 3
    requires pa.Length == 3 && pb.Length == 3 && raTwo.Length == 3 && rbTwo.Length == 3
    requires ca != ra && ca != rb && ca != pa && ca != pb && ca != raTwo && ca != rbTwo
    requires cb != ra && cb != rb && cb != pa && cb != pb && cb != raTwo && cb != rbTwo
    requires ca != cb
    requires raTwo[..] == Add(ra[..], pa[..]) && rbTwo[..] == Add(rb[..], pb[..])
    modifies ca, cb
    ensures var r := Stage2(absolute, old(ca[..]), old(cb[..]), ra[..], rb[..], pa[..], pb[..]);
            ca[..] == r.a && cb[..] == r.b
  {
    var cabMag, d1Mag, d2Mag, d3Mag, d4Mag := NodeMagnitudes(absolute, ca, cb, ra, rb, pa, pb, raTwo, rbTwo);
    if cabMag > Tolerance * Min4(d1Mag, d2Mag, d3Mag, d4Mag) {
      MoveOntoNode(d1Mag, d2Mag, d3Mag, d4Mag, ca, cb, ra, raTwo, rb, rbTwo);
    }
  }

  /** The norms stage 2 compares: of `c_b - c_a`, and of d1, d2, d3, d4. */
  method NodeMagnitudes(absolute: Vec3 -> real, ca: array<real>, cb: array<real>,
                        ra: array<real>, rb: array<real>, pa: array<real>, pb: array<real>,
                        raTwo: array<real>, rbTwo: array<real>)
    returns (cabMag: real, d1Mag: real, d2Mag: real, d3Mag: real, d4Mag: real)
    requires ca.Length == 3 && cb.Length == 3 && ra.Length == 3 && rb.Length == 3
    requires pa.Length == 3 && pb.Length == 3 && raTwo.Length == 3 && rbTwo.Length == 3
    requires raTwo[..] == Add(ra[..], pa[..]) && rbTwo[..] == Add(rb[..], pb[..])
    ensures cabMag == absolute(Sub(cb[..], ca[..]))
    ensures (d1Mag, d2Mag, d3Mag, d4Mag) == NodeDistances(absolute, ca[..], cb[..], ra[..], rb[..], pa[..], pb[..])
  {
    var cAB := new real[3];
    Difference(cb, ca, cAB);
    cabMag := absolute(cAB[..]);
    var d1 := new real[3];
    Difference(cb, ra, d1);
    d1Mag := absolute(d1[..]);
    var d2 := new real[3];
    Difference(cb, raTwo, d2);
    d2Mag := absolute(d2[..]);
    var d3 := new real[3];
    Difference(ca, rb, d3);
    d3Mag := absolute(d3[..]);
    var d4 := new real[3];
    Difference(ca, rbTwo, d4);
    d4Mag := absolute(d4[..]);
  }

  /** The cascade of stage 2 on buffers: the first of d1..d4 attaining the
      minimum decides which point moves and onto which node. */
  method MoveOntoNode(d1Mag: real, d2Mag: real, d3Mag: real, d4Mag: real, ca: array<real>, cb: array<real>,
                      ra: array<real>, raTwo: array<real>, rb: array<real>, rbTwo: array<real>)
    requires ca.Length == 3 && cb.Length == 3 && ra.Length == 3 && raTwo.Length == 3
    requires rb.Length == 3 && rbTwo.Length == 3
    requires ca != ra && ca != raTwo && ca != rb && ca != rbTwo
    requires cb != ra && cb != raTwo && cb != rb && cb != rbTwo
    requires ca != cb
    modifies ca, cb
    ensures var c := TieBreak(d1Mag, d2Mag, d3Mag, d4Mag);
            ca[..] == (if c == StartA then ra[..] else if c == EndA then raTwo[..] else old(ca[..])) &&
            cb[..] == (if c == StartB then rb[..] else if c == EndB then rbTwo[..] else old(cb[..]))
  {
    if d1Mag <= Min3(d2Mag, d3Mag, d4Mag) {
      Copy(ra, ca);
    } else if d2Mag <= Min(d3Mag, d4Mag) {
      Copy(raTwo, ca);
    } else if d3Mag <= d4Mag {
      Copy(rb, cb);
    } else {
      Copy(rbTwo, cb);
    }
  }

  /** Stage 1 on buffers: projects `c_a - r_a` on `p_a` and `c_b - r_b` on
      `p_b` and snaps each point to a node of its element. */
  method ClampToElements(absolute: Vec3 -> real, ca: array<real>, cb: array<real>,
                         ra: array<real>, rb: array<real>, pa: array<real>, pb: array<real>,
                         raTwo: array<real>, rbTwo: array<real>)
    requires IsNorm(absolute)
    requires ca.Length == 3 && cb.Length == 3 && ra.Length == 3 && rb.Length == 3
    requires pa.Length == 3 && pb.Length == 3 && raTwo.Length == 3 && rbTwo.Length == 3
    requires ca != ra && ca != rb && ca != pa && ca != pb && ca != raTwo && ca != rbTwo
    requires cb != ra && cb != rb && cb != pa && cb != pb && cb != raTwo && cb != rbTwo
    requires ca != cb
    requires raTwo[..] == Add(ra[..], pa[..]) && rbTwo[..] == Add(rb[..], pb[..])
    modifies ca, cb
    ensures var r := Stage1(old(ca[..]), old(cb[..]), ra[..], rb[..], pa[..], pb[..]);
            ca[..] == r.a && cb[..] == r.b
  {
    ghost var a0, b0 := ca[..], cb[..];
    var rcA := new real[3];
    var rcB := new real[3];
    Difference(ca, ra, rcA);
    Difference(cb, rb, rcB);
    var dotA := Dot(pa[..], rcA[..]);
    var dotB := Dot(pb[..], rcB[..]);
    var pASq := absolute(pa[..]) * absolute(pa[..]);
    var pBSq := absolute(pb[..]) * absolute(pb[..]);
    assert pASq == SqNorm(pa[..]) && pBSq == SqNorm(pb[..]);
    assert dotA == Projection(a0, ra[..], pa[..]) && dotB == Projection(b0, rb[..], pb[..]);

    SnapInPlace(ca, ra, raTwo, dotA, dotA, pASq);
    SnapInPlace(cb, rb, rbTwo, dotB, dotA, pBSq);
  }

  /** `rod_distance_correction`: corrects `ca`, `cb` in place and copies them to
      `caOut`, `cbOut`. The outputs may be the inputs themselves, as in the call
      from `get_shortest_distance_to_rod`; either way every one of the four
      buffers ends up holding the corrected points. */
  method RodDistanceCorrection(absolute: Vec3 -> real,
                               ca: array<real>, cb: array<real>, ra: array<real>, rb: array<real>,
                               pa: array<real>, pb: array<real>, caOut: array<real>, cbOut: array<real>)
    requires IsNorm(absolute)
    requires ca.Length == 3 && cb.Length == 3 && ra.Length == 3 && rb.Length == 3
    requires pa.Length == 3 && pb.Length == 3 && caOut.Length == 3 && cbOut.Length == 3
    requires ca != ra && ca != rb && ca != pa && ca != pb
    requires cb != ra && cb != rb && cb != pa && cb != pb
    requires caOut != ra && caOut != rb && caOut != pa && caOut != pb
    requires cbOut != ra && cbOut != rb && cbOut != pa && cbOut != pb
    requires ca != cb && caOut != cb && cbOut != ca && caOut != cbOut
    modifies ca, cb, caOut, cbOut
    ensures var r := Correct(absolute, old(ca[..]), old(cb[..]), ra[..], rb[..], pa[..], pb[..]);
            ca[..] == r.a && caOut[..] == r.a && cb[..] == r.b && cbOut[..] == r.b
  {
    var raTwo := new real[3];
    var rbTwo := new real[3];
    Sum(ra, pa, raTwo);
    Sum(rb, pb, rbTwo);
    ClampToElements(absolute, ca, cb, ra, rb, pa, pb, raTwo, rbTwo);
    ReplaceByShortest(absolute, ca, cb, ra, rb, pa, pb, raTwo, rbTwo);
    Copy(ca, caOut);
    Copy(cb, cbOut);
  }
}
