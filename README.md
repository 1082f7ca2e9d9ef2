# Rod–rod steric geometry

This project models how the rod model of FFEA decides whether two rod elements touch and what that contact costs. The code is in `src/rod_interactions.cpp`. Each element is a straight segment from its start node `r` to its end node `r + p`, and has a radius.

The model follows the four routines of that file:

- **`get_shortest_distance_to_rod`** (module `ShortestDistance`): the closest points `c_a`, `c_b` of the two infinite lines through the elements, followed by the corrector.
- **`rod_distance_correction`** (module `DistanceCorrection`) moves the two points in two stages:
  - stage 1 snaps `c_a` to a node of element a when its projection falls outside the element. `c_b` snaps to b's start node when its own projection is `<= 0`, and otherwise to b's end node when `c_a`'s projection is `>= |p_b|^2` (line 145, see "## Findings"). So `c_b` can stay outside its element, or be snapped while inside it;
  - stage 2 replaces one point by a node of its own element when `|c_ab| > 0.99 min(d1..d4)`, where `d1..d4` are the node-to-point distances. That test also holds when `c_ab` is already shorter than every `d_i`, as long as it is longer than 0.99 times the least of them, so stage 2 can lengthen the interaction vector by up to a factor `1/0.99`.
- **`assign_neighbours_to_elements`** (module `NeighbourLists`): the strict in-range test, and the mirrored 7-scalar records appended to both neighbour lists.
- **`get_steric_perturbation_energy`** (module `StericEnergy`): the perturbation of one coordinate of `c_b`, the linear steric energy, and its split over the two nodes of element a.

Module `VectorMath` holds the 3-vector helpers, over `real`:

- `Vec3` is a sequence of three reals.
- The `vec3d(n){...}` loops become small loop methods on `array<real>` buffers of length 3.
- `rod::absolute` becomes a function parameter `absolute` satisfying `IsNorm`: it is non-negative and its square is the dot product of the vector with itself.

Each routine has two forms:

- a method on arrays, written step by step like the C++;
- pure functions that specify it: `Stage1`, `Stage2`, `Correct`, `ShortestPoints`, `Assign`, `NodeEnergies`.

Each method's postcondition ties its buffers to the matching function. The lemmas then state what the functions guarantee.

`CorrectIntended` and `ShortestPointsIntended` are the corrector and routine with the two defects listed under "## Findings" repaired: the `c_b` test of line 145 uses `dot_b`, and the stage-2 trigger of line 167 is `0.99 |c_ab| > min(d1..d4)`.

## Model

| member | source | states |
|---|---|---|
| VectorMath.Difference | src/rod_interactions.cpp:74 | the output buffer holds the componentwise difference of the inputs as they were on entry, even when it aliases one of them |
| VectorMath.Sum | src/rod_interactions.cpp:120-121 | the output buffer holds the componentwise sum, e.g. the end node `r + p` |
| VectorMath.Copy | src/rod_interactions.cpp:182-183 | the destination buffer holds the source's contents |
| VectorMath.Normalize | src/rod_interactions.cpp:215-216 | the output is the input scaled by the reciprocal of its (non-zero) norm |
| VectorMath.CrossProduct | src/rod_interactions.cpp:218-221 | the output is the cross product of the two inputs |
| VectorMath.Min4 | src/rod_interactions.cpp:167 | the minimum is at most each of the four values and equal to one of them |
| VectorMath.DoubleCross | src/rod_interactions.cpp:220-221 | the normals `l_a x (l_a x l_b)` and `l_b x (l_a x l_b)` expand into combinations of `l_a` and `l_b` with dot-product coefficients |
| VectorMath.Lagrange | src/rod_interactions.cpp:218 | `|l_a x l_b|^2 = |l_a|^2 |l_b|^2 - (l_a . l_b)^2` |
| DistanceCorrection.TieBreakFirstMinimum | src/rod_interactions.cpp:167-179 | the stage-2 branch selects the first of d1, d2, d3, d4 that equals their minimum; every earlier one is strictly larger |
| DistanceCorrection.CorrectOutputSet | src/rod_interactions.cpp:120-178 | a corrected `c_a` is the input `c_a`, `r_a` or `r_a + p_a`; a corrected `c_b` is the input `c_b`, `r_b` or `r_b + p_b` |
| DistanceCorrection.SnapClamps | src/rod_interactions.cpp:129-140 | for a point at parameter `s` of an element's line, the stage-1 test against its own projection yields the point at parameter `s` clamped to [0, 1] |
| DistanceCorrection.Stage2Scope | src/rod_interactions.cpp:153-180 | untriggered, stage 2 changes nothing. Triggered, it keeps one point and moves the other onto a node of its own element, and the new interaction vector's length is the minimum of d1..d4 |
| DistanceCorrection.Stage2KeepsA | src/rod_interactions.cpp:167-173 | stage 2 keeps a `c_a` that lies on element a's closed segment on that segment |
| DistanceCorrection.Stage2KeepsB | src/rod_interactions.cpp:174-178 | stage 2 keeps a `c_b` that lies on element b's closed segment on that segment |
| DistanceCorrection.Stage2KeepsCoincident | src/rod_interactions.cpp:167 | stage 2 never fires on two coincident points: a zero-length vector is never longer than 0.99 times a non-negative distance |
| DistanceCorrection.Stage2LengthBound | src/rod_interactions.cpp:165-180 | stage 2 as written never makes the interaction vector more than `1/0.99` times longer: `0.99 |new| <= |old|` |
| DistanceCorrection.Stage2Lengthens | src/rod_interactions.cpp:165-180 | a concrete input, two midpoints 1 apart, on which the corrector as written moves `c_a` to a's start node and the separation grows to `sqrt(1.01)` |
| DistanceCorrection.Stage2IntendedShortens | src/rod_interactions.cpp:165-180 | with the repaired trigger, stage 2 never lengthens the vector. When it fires, one point moves onto a node of its own element and the new length is `min(d1..d4)`, strictly less than before. Otherwise nothing changes and `0.99 |c_ab| <= min(d1..d4)` |
| DistanceCorrection.Stage2IntendedKeepsMidpoints | src/rod_interactions.cpp:165-167 | on the `Stage2Lengthens` input the repaired corrector keeps both midpoints |
| DistanceCorrection.Stage2IntendedBySquares | src/rod_interactions.cpp:159-167 | the repaired trigger holds exactly when `0.99^2 |c_ab|^2` exceeds the least squared node distance, and its branch is the one chosen on squared lengths |
| DistanceCorrection.Stage2BySquares | src/rod_interactions.cpp:159-171 | the trigger holds exactly when the squared length exceeds `0.99^2` times the least squared node distance, and the branch equals the one chosen on squared lengths; the decisions do not depend on the square root |
| DistanceCorrection.CorrectKeepsAOnSegment | src/rod_interactions.cpp:135-140 | any `c_a` on element a's line leaves the corrector on element a's closed segment, whatever `c_b` is |
| DistanceCorrection.CorrectIntendedOnSegments | src/rod_interactions.cpp:142-147 | with the `c_b` test using `dot_b` and the repaired stage-2 trigger, points on the two lines both leave the corrector on their own closed segments |
| DistanceCorrection.Line145Counterexample | src/rod_interactions.cpp:145-147 | a concrete input on which the corrector as written leaves `c_b` at parameter 3 of element b's line, off its segment |
| DistanceCorrection.Line145SnapsInside | src/rod_interactions.cpp:128-147 | a concrete input on which stage 1 as written snaps a `c_b` at parameter 0.5 of element b, inside the element, to b's end node, while the repaired test keeps it |
| DistanceCorrection.Line145Repaired | src/rod_interactions.cpp:145-147 | on the same input the repaired corrector moves `c_b` to element b's end node, at separation 2 |
| DistanceCorrection.CorrectorNotIdempotent | src/rod_interactions.cpp:126-180 | a concrete input for which correcting twice gives a different result from correcting once |
| DistanceCorrection.SnapInPlace | src/rod_interactions.cpp:135-147 | one stage-1 test on a buffer: start node when the lower test holds, else end node when the upper test holds, else unchanged |
| DistanceCorrection.ClampToElements | src/rod_interactions.cpp:126-147 | the two buffers end up holding `Stage1` of their old contents, including the as-written `c_b` test |
| DistanceCorrection.MoveOntoNode | src/rod_interactions.cpp:168-179 | the buffer the tie-break selects takes the matching node and the other buffer is unchanged |
| DistanceCorrection.NodeMagnitudes | src/rod_interactions.cpp:153-162 | the five magnitudes compared at line 167 are `|c_b - c_a|` and `NodeDistances` of the buffers' current contents: d1, d2 from `c_b` to a's start and end nodes, d3, d4 from `c_a` to b's start and end nodes |
| DistanceCorrection.ReplaceByShortest | src/rod_interactions.cpp:153-180 | the two buffers end up holding `Stage2` of their old contents, with norms compared as the code compares them |
| DistanceCorrection.RodDistanceCorrection | src/rod_interactions.cpp:100-183 | the working buffers and the output buffers all hold `Correct` of the inputs, whether or not the outputs alias the inputs |
| ShortestDistance.SkewIffNotParallel | src/rod_interactions.cpp:218-227 | the divisors `l_a . n_b` and `l_b . n_a` are `+|l_a x l_b|^2` and `-|l_a x l_b|^2`, so both are non-zero exactly when the directions are not parallel |
| ShortestDistance.ClosestParameters | src/rod_interactions.cpp:226-227 | the two line parameters solve the normal equations `t_a D = |l_b|^2 x - (l_a.l_b) y` and `t_b D = (l_a.l_b) x - |l_a|^2 y` of the closest-point problem |
| ShortestDistance.ClosestOnLinesPerpendicular | src/rod_interactions.cpp:226-227 | the vector joining the two computed points is orthogonal to both directions |
| ShortestDistance.ClosestOnLinesShortest | src/rod_interactions.cpp:226-227 | no pair of points on the two lines is closer than the computed pair |
| ShortestDistance.LineClosestOnLines | src/rod_interactions.cpp:215-227 | with the normalised directions, `c_a` lies on element a's line and `c_b` on element b's line |
| ShortestDistance.LineClosestShortest | src/rod_interactions.cpp:215-227 | the uncorrected pair is at least as close as any pair of points `r_a + s p_a`, `r_b + t p_b` |
| ShortestDistance.ShortestKeepsAOnSegment | src/rod_interactions.cpp:206-248 | the `c_a` the routine returns lies on element a's closed segment |
| ShortestDistance.ShortestIntendedOnSegments | src/rod_interactions.cpp:206-248 | with the repaired `c_b` test and stage-2 trigger, both returned points lie on their closed segments |
| ShortestDistance.GetShortestDistanceToRod | src/rod_interactions.cpp:206-249 | the buffers `c_a`, `c_b` end up holding `ShortestPoints`, with the corrector called on aliased buffers as at line 248 |
| ShortestDistance.LineClosestPoints | src/rod_interactions.cpp:215-227 | the buffers hold the uncorrected closest points of the two lines |
| ShortestDistance.MeetPlane | src/rod_interactions.cpp:226-227 | the buffer holds `r + ((d . n) / (l . n)) l` |
| ShortestDistance.LineFrame | src/rod_interactions.cpp:207-221 | fresh buffers hold the unit directions, their cross product and the two normals |
| ShortestDistance.AxesClosest | src/rod_interactions.cpp:226-227 | for x- and y-axis directions the formula gives the expected closest points, for every pair of start nodes |
| ShortestDistance.AxesXZClosest | src/rod_interactions.cpp:226-227 | for x- and z-axis directions the formula gives the expected closest points, for every pair of start nodes |
| ShortestDistance.CrossingElements | src/rod_interactions.cpp:206-248 | two crossing elements give both points at their common point, the middle of each element |
| ShortestDistance.Line145Routine | src/rod_interactions.cpp:145-147 | the whole routine on the line-145 input returns a `c_b` off element b's segment |
| ShortestDistance.RoutineLengthens | src/rod_interactions.cpp:206-248 | on the `Stage2Lengthens` elements the closest points of the lines are the two midpoints; the routine as written returns a's start node in place of `c_a`, the repaired routine returns the midpoints |
| NeighbourLists.RecordLayout | src/rod_interactions.cpp:290-296 | a record has 7 scalars: own point at 0-2, other point at 3-5, other radius at 6 |
| NeighbourLists.AssignAppendsOnly | src/rod_interactions.cpp:281-297 | earlier entries of both lists are untouched; each list grows by 7 when in range and by nothing otherwise |
| NeighbourLists.AssignMirrored | src/rod_interactions.cpp:290-296 | when in range, list A gains `c_a, c_b, radius_b` and list B gains `c_b, c_a, radius_a`, each the mirror of the other |
| NeighbourLists.AssignFlag | src/rod_interactions.cpp:281-283 | `in_range` holds exactly when the separation is strictly below the sum of the radii; at equality it is false and both lists are unchanged |
| NeighbourLists.AssignNeighboursToElements | src/rod_interactions.cpp:261-297 | the lists and flag it ends with are `Assign` of its inputs |
| NeighbourLists.Register | src/rod_interactions.cpp:279-297 | the flag is the strict range test on the buffers; each list gains its record exactly when the flag is set |
| NeighbourLists.PushPoint | src/rod_interactions.cpp:290 | pushing a buffer's three coordinates appends them in order |
| NeighbourLists.SkewPair | src/rod_interactions.cpp:206-248 | for perpendicular skew elements one unit apart, the routine returns `(0.5,0,0)`, `(0.5,1,0)`, at separation 1 |
| NeighbourLists.InRangeRegistration | src/rod_interactions.cpp:281-296 | with radii 0.6 that pair is registered, with the exact 7-scalar records on both lists |
| NeighbourLists.OutOfRangeRegistration | src/rod_interactions.cpp:281-282 | with radii 0.2 that pair is not in range and both lists are unchanged |
| StericEnergy.PerturbedMovesOne | src/rod_interactions.cpp:73 | only coordinate `dim` of `c_b` changes, and by exactly the perturbation amount |
| StericEnergy.EnergiesSum | src/rod_interactions.cpp:75-84 | the two node energies add up to `k (|c_b - c_a| - (R_a + R_b))` for the perturbed `c_b` |
| StericEnergy.StartNodeTakesAll | src/rod_interactions.cpp:78-84 | when `c_a = r_a`, the end node gets 0 and the start node gets all of the energy |
| StericEnergy.EndNodeTakesAll | src/rod_interactions.cpp:79-84 | when `c_a = r_a + p_a`, the start node gets 0 and the end node gets all of the energy |
| StericEnergy.WeightIsParameter | src/rod_interactions.cpp:79-81 | for `c_a` at parameter `t >= 0` of element a's line, the end node's weight is `t` |
| StericEnergy.WeightsOnSegment | src/rod_interactions.cpp:79-81 | for `c_a` on element a's segment, both weights lie in [0, 1] |
| StericEnergy.RoutineWeights | src/rod_interactions.cpp:79-81 | for the `c_a` that `get_shortest_distance_to_rod` returns, the weight lies in [0, 1] |
| StericEnergy.GetStericPerturbationEnergy | src/rod_interactions.cpp:53-86 | `c_b` is perturbed in place, and `energies` holds the start-node and end-node energies of `NodeEnergies` |

## Left out

- Debug printing under `dbg_print` (src/rod_interactions.cpp:185-197, 229-245, 299-304) writes to standard output and never affects a result.
- The commented-out `get_spherical_volume_intersection` (src/rod_interactions.cpp:308-341) is dead code.
- StericEnergy.GetStericPerturbationEnergy: requires `0 <= dim < 3` and a non-zero `|p_a|`. The source indexes `c_b[perturbation_dimension]` unchecked (src/rod_interactions.cpp:73) and divides by `|p_a|` (src/rod_interactions.cpp:79). Outside those bounds the C++ behaviour is undefined or not a number, so the model does not cover those inputs.
- Floating point is not modelled. The model uses `real`, so it does not capture IEEE rounding, NaN propagation or the actual `sqrt`.
  - `rod::absolute`, `normalize`, `dot_product_3x1` and `cross_product` come from the rod math library, which is not part of this model.
  - The norm is an abstract function with the norm property.
  - `normalize` is multiplication by the reciprocal of the norm.
  - Dot and cross products are their textbook definitions.
- Parallel directions and zero-length elements are preconditions (`Crossing`): the code has no guard for them, and dividing by zero there has no defined result over the reals. No fallback is invented.
- The `reserve` calls (src/rod_interactions.cpp:286-287) are a capacity hint with no observable effect.
- Passing by value: `assign_neighbours_to_elements` takes its two lists and `in_range` by value, so its caller never sees the appends. The model returns the function's own copies at its end instead of modifying the caller's data.
- Buffer aliasing beyond what the code does is excluded by preconditions. For example, `c_a` and `c_b` must be distinct from the node and direction buffers. The only aliasing the code performs, the corrector writing its outputs into its inputs, is allowed and modelled.
- The corrector is not idempotent. `DistanceCorrection.CorrectorNotIdempotent` gives an input whose second correction moves a point the first correction left in place. The model states what the code does and claims no idempotence.
- `tests/rods/integration/interactPBC_equalEnergy/run_test.py` and `ffeatools/ffeatoolsScript.py` are not modelled: they launch the simulator binary, read trajectory files and dispatch command lines.

## Findings

| source | as written | input that shows it | evidently intended | confidence | as-written member | corrected member |
|---|---|---|---|---|---|---|
| src/rod_interactions.cpp:145 | the upper stage-1 test for `c_b` compares `dot_a` with `|p_b|^2` | `r_a = 0`, `p_a = (1,0,0)`, `r_b = (0.5,-3,0)`, `p_b = (0,1,0)`: the lines meet at `(0.5,0,0)`, parameter 3 of b's line. `dot_a = 0.5 < 1` so `c_b` is not snapped, and stage 2 does not fire, so `c_b` stays 2 units beyond b's end node. Conversely, `c_a = (2,0,0)`, `c_b = (0,1.5,0)`, `r_a = 0`, `p_a = (1,0,0)`, `r_b = p_b = (0,1,0)`: `c_b` is at parameter 0.5, inside b, but `dot_a = 2 >= 1` snaps it to b's end node | `dot_b >= p_b_sq`, so that `c_b` is clamped to its own segment as `c_a` is | not executed | DistanceCorrection.Line145Counterexample, DistanceCorrection.Line145SnapsInside, ShortestDistance.Line145Routine | DistanceCorrection.CorrectIntendedOnSegments, DistanceCorrection.Line145Repaired, ShortestDistance.ShortestIntendedOnSegments |
| src/rod_interactions.cpp:165-167 | stage 2 fires when `|c_ab| > 0.99 min(d1..d4)`, although the comment says to do nothing when `c_ab` is already the shortest | `r_a = (-0.1,0,0)`, `p_a = (0.2,0,0)`, `r_b = (0,1,-0.1)`, `p_b = (0,0,0.2)`: the closest points are the midpoints `(0,0,0)` and `(0,1,0)`, 1 apart, and every node distance is `sqrt(1.01)`. Since `1 > 0.99 sqrt(1.01)`, `c_a` moves to a's start node and the separation grows to `sqrt(1.01)` | `0.99 |c_ab| > min(d1..d4)`: replace only a vector that a node distance beats by the tolerance, so the separation never grows | not executed | DistanceCorrection.Stage2Lengthens, DistanceCorrection.Stage2LengthBound, ShortestDistance.RoutineLengthens | DistanceCorrection.Stage2IntendedShortens, DistanceCorrection.Stage2IntendedKeepsMidpoints, ShortestDistance.ShortestIntendedOnSegments |
