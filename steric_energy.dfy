/** The steric energy of a perturbed interaction vector
    (`get_steric_perturbation_energy` in src/rod_interactions.cpp). One
    coordinate of `c_b` is moved by the perturbation amount; the energy is
    linear in the overlap `|c_b - c_a| - (R_a + R_b)`, and it is shared between
    the two nodes of element a in proportion to where `c_a` sits on it. */
module StericEnergy {
  import opened VectorMath
  import opened ShortestDistance

  /** `c` with coordinate `dim` moved by `amount`. */
  function Perturbed(c: Vec3, dim: nat, amount: real): Vec3
    requires dim < 3
  {
    c[dim := c[dim] + amount]
  }

  /** Steric energy `k (|c_b - c_a| - (R_a + R_b))`. */
  function Energy(absolute: Vec3 -> real, ca: Vec3, cb: Vec3, k: real, radiusA: real, radiusB: real): real {
    k * (absolute(Sub(cb, ca)) - (radiusA + radiusB))
  }

  /** The share of the end node of element a: how far `c_a` is from the start
      node, as a fraction of the element's length. */
  function EndWeight(absolute: Vec3 -> real, ra: Vec3, pa: Vec3, ca: Vec3): real
    requires absolute(pa) != 0.0
  {
    absolute(Sub(ca, ra)) / absolute(pa)
  }

  /** The energies of the start node, index 0, and of the end node, index 1,
      after the perturbation. */
  function NodeEnergies(absolute: Vec3 -> real, amount: real, dim: nat, k: real, ra: Vec3, pa: Vec3,
                        ca: Vec3, cb: Vec3, radiusA: real, radiusB: real): (real, real)
    requires dim < 3 && absolute(pa) != 0.0
  {
    var e := Energy(absolute, ca, Perturbed(cb, dim, amount), k, radiusA, radiusB);
    var w := EndWeight(absolute, ra, pa, ca);
    ((1.0 - w) * e, w * e)
  }

  // ---------------------------------------------------------------------
  // Properties

  /** The perturbation moves one coordinate, by exactly the amount. */
  lemma PerturbedMovesOne(c: Vec3, dim: nat, amount: real)
    requires dim < 3
    ensures var q := Perturbed(c, dim, amount);
            q[dim] == c[dim] + amount && forall j :: 0 <= j < 3 && j != dim ==> q[j] == c[j]
  {
  }

  /** The node energies add up to the energy of the perturbed vector. */
  lemma EnergiesSum(absolute: Vec3 -> real, amount: real, dim: nat, k: real, ra: Vec3, pa: Vec3,
                    ca: Vec3, cb: Vec3, radiusA: real, radiusB: real)
    requires dim < 3 && absolute(pa) != 0.0
    ensures var e := NodeEnergies(absolute, amount, dim, k, ra, pa, ca, cb, radiusA, radiusB);
            e.0 + e.1 == Energy(absolute, ca, Perturbed(cb, dim, amount), k, radiusA, radiusB)
  {
  }

  /** When `c_a` is the start node, all the energy goes to the start node. */
  lemma StartNodeTakesAll(absolute: Vec3 -> real, amount: real, dim: nat, k: real, ra: Vec3, pa: Vec3,
                          cb: Vec3, radiusA: real, radiusB: real)
    requires IsNorm(absolute) && dim < 3 && absolute(pa) != 0.0
    ensures var e := NodeEnergies(absolute, amount, dim, k, ra, pa, ra, cb, radiusA, radiusB);
            e.1 == 0.0 && e.0 == Energy(absolute, ra, Perturbed(cb, dim, amount), k, radiusA, radiusB)
  {
    assert Sub(ra, ra) == Zero;
    NormOfZero(absolute);
  }

  /** When `c_a` is the end node, all the energy goes to the end node. */
  lemma EndNodeTakesAll(absolute: Vec3 -> real, amount: real, dim: nat, k: real, ra: Vec3, pa: Vec3,
                        cb: Vec3, radiusA: real, radiusB: real)
    requires dim < 3 && absolute(pa) != 0.0
    ensures var e := NodeEnergies(absolute, amount, dim, k, ra, pa, Add(ra, pa), cb, radiusA, radiusB);
            e.0 == 0.0 && e.1 == Energy(absolute, Add(ra, pa), Perturbed(cb, dim, amount), k, radiusA, radiusB)
  {
    Componentwise(Sub(Add(ra, pa), ra), pa);
  }

  /** For `c_a` at parameter `t >= 0` of element a's line, the end node's
      weight is `t`: the split is linear interpolation along the element. */
  lemma WeightIsParameter(absolute: Vec3 -> real, ra: Vec3, pa: Vec3, t: real)
    requires IsNorm(absolute) && absolute(pa) != 0.0 && t >= 0.0
    ensures EndWeight(absolute, ra, pa, PointAt(ra, pa, t)) == t
  {
    DotAlongLine(ra, pa, t);
    NormScale(absolute, t, pa);
  }

  /** For `c_a` on the segment of element a, both weights lie in [0, 1], so
      each node takes a share of the energy between none and all of it. */
  lemma WeightsOnSegment(absolute: Vec3 -> real, ra: Vec3, pa: Vec3, ca: Vec3)
    requires IsNorm(absolute) && absolute(pa) != 0.0 && OnSegment(ca, ra, pa)
    ensures 0.0 <= EndWeight(absolute, ra, pa, ca) <= 1.0
  {
    var t :| 0.0 <= t <= 1.0 && ca == PointAt(ra, pa, t);
    WeightIsParameter(absolute, ra, pa, t);
  }

  /** For the `c_a` the shortest-distance routine returns, the weights lie in [0, 1]. */
  lemma RoutineWeights(absolute: Vec3 -> real, ra: Vec3, rb: Vec3, pa: Vec3, pb: Vec3)
    requires IsNorm(absolute) && Crossing(absolute, pa, pb)
    ensures 0.0 <= EndWeight(absolute, ra, pa, ShortestPoints(absolute, ra, rb, pa, pb).a) <= 1.0
  {
    ShortestKeepsAOnSegment(absolute, ra, rb, pa, pb);
    WeightsOnSegment(absolute, ra, pa, ShortestPoints(absolute, ra, rb, pa, pb).a);
  }

  // ---------------------------------------------------------------------
  // The function on buffers

  /** `get_steric_perturbation_energy`: perturbs `cb` in place and writes the
      two node energies into `energies`. */
  method GetStericPerturbationEnergy(absolute: Vec3 -> real, amount: real, dim: int, k: real,
                                     ra: array<real>, pa: array<real>, ca: array<real>, cb: array<real>,
                                     radiusA: real, radiusB: real, energies: array<real>)
    requires 0 <= dim < 3
    requires ra.Length == 3 && pa.Length == 3 && ca.Length == 3 && cb.Length == 3 && energies.Length == 2
    requires absolute(pa[..]) != 0.0
    requires cb != ra && cb != pa && cb != ca
    requires energies != ra && energies != pa && energies != ca && energies != cb
    modifies cb, energies
    ensures cb[..] == Perturbed(old(cb[..]), dim, amount)
    ensures var e := NodeEnergies(absolute, amount, dim, k, ra[..], pa[..], ca[..], old(cb[..]), radiusA, radiusB);
            energies[..] == [e.0, e.1]
  {
    ghost var cb0, caS, raS, paS := cb[..], ca[..], ra[..], pa[..];
    cb[dim] := cb[dim] + amount;
    assert cb[..] == Perturbed(cb0, dim, amount);
    var cab := new real[3];
    Difference(cb, ca, cab);
    var energy := k * (absolute(cab[..]) - (radiusA + radiusB));
    assert energy == Energy(absolute, caS, Perturbed(cb0, dim, amount), k, radiusA, radiusB);

    var displacement := new real[3];
    Difference(ca, ra, displacement);
    var weightEnd := absolute(displacement[..]) / absolute(pa[..]);
    assert weightEnd == EndWeight(absolute, raS, paS, caS);
    var weightStart := 1.0 - weightEnd;

    energies[0] := weightStart * energy;
    energies[1] := weightEnd * energy;
    assert ca[..] == caS && ra[..] == raS && pa[..] == paS;
    ghost var e := NodeEnergies(absolute, amount, dim, k, raS, paS, caS, cb0, radiusA, radiusB);
    assert e.0 == weightStart * energy && e.1 == weightEnd * energy;
    assert energies[..] == [e.0, e.1];
  }
}
