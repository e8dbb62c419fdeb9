# Airbridges, coupled-line tee and cheesing, modelled in Dafny

This project models four pieces of qiskit-metal's layout code and proves
properties of them:

- **Airbridge placement planner** (`Airbridging.find_uniform_ab_placement`),
  in `airbridging.dfy`. It takes the vertices of a routed coplanar-waveguide
  path and produces bridge placements in two passes:
  - the **straight pass** snaps each segment's ends to the `precision` grid,
    counts the bridges that fit between the corner clearances, and lays them
    out a pitch apart, centred on the segment's midpoint and oriented along it;
  - the **corner pass** adds one bridge at every interior vertex whose
    incoming segment is long enough. It moves that bridge off the vertex on
    each axis separately: by `fillet * (1 - |cos θ|)` against the sign of
    `cos θ` on x, and by `fillet * (1 - |sin θ|)` against the sign of `sin θ`
    on y. Here θ is the direction of the incoming segment's unit vector minus
    the outgoing segment's.

  The same file models the fresh-name search (`initial_name`, then
  `initial_name1`, `initial_name11`, …) used to instantiate a footprint
  component temporarily.
- **Airbridge footprint** (`Airbridge_forGDS.make`), in `footprint.dfy`:
  two landing squares, the bridge spanning them and an outer clearance
  rectangle, with their layers.
- **Coupled-line tee** (`CoupledLineTeeCustom.make`), in
  `coupled_line_tee.dfy`:
  - the centrelines of the prime and secondary conductors and of their etch
    regions;
  - the geometry entries it registers;
  - the pins it adds, with their vertex pairs.
- **Cheesing grid** (`Cheesing`), in `cheesing.dfy`:
  - the validator that compares hole size with spacing, and the gate in
    `apply_cheesing` that uses it;
  - the grid bounds and the `numpy.arange` hole centres;
  - the four-corner test box around each centre;
  - the keepout filter that decides which holes are placed.

Shared vocabulary is in `geometry.dfy`: points, boxes, Python's `round`,
`numpy.sign` and averages. Generic list shapes used by the passes are in
`seqs.dfy`: appending one list per step, keeping only present values, and
filtering.

Every operation is a pure function over `real` (millimetres, degrees) or
over sequences. Three things become parameters instead:

- numpy's `sqrt`, `arctan2`, `cos`, `sin` and `degrees` are a `Trig` record
  of total functions. A property that needs one of their identities
  (`cos² + sin² = 1`, `sqrt(v)² = v`) asks for it at the one argument where
  it is used.
- The keepout test `gdspy.inside` is a function from a test box to `bool`.
- The set of existing component names is an argument of `FreshName`.

Behaviour of the code that the model keeps:

- **Bridge count.** The count loop starts at one bridge and adds one while
  `usable_length >= n * pitch`. The count is therefore the least `n >= 1`
  with `usable_length < n * pitch`. A usable length of 9 at pitch 2 gives
  five bridges (`NineAtPitchTwo`).
- **Short segments.** A segment whose usable length is negative still gets
  one bridge, at its midpoint (`ShortSegmentSingleBridge`).
- **Corner skip.** The corner pass tests only the incoming segment's length
  against the fillet radius and the minimum spacing. It also starts from the
  vertex as given, not from its quantised copy.
- **Zero bisector component.** `numpy.sign` of a zero cosine or sine is
  zero. A corner bridge is then not pulled at all along that axis, even
  though `fillet * (1 - |c|)` is the full fillet radius there (`ArcOffset`).
- **Invalid parameters.** The code does not check pitch, spacing, fillet or
  precision.
  - A zero `precision` divides by zero.
  - A non-positive pitch makes the count loop run forever once some
    segment's usable length reaches the pitch.

  The model requires a non-zero precision and a positive pitch
  (`ValidParams`). Negative spacing and fillet are accepted, as the code
  accepts them.

## Model

| member | source | states |
|---|---|---|
| Geometry.RoundHalfEven | qiskit_metal/renderers/renderer_gds/make_airbridge.py:129-132 | Python's `round`: the result is within one half of its argument, and a tie goes to the even integer |
| Geometry.Sign | qiskit_metal/renderers/renderer_gds/make_airbridge.py:203-204 | `numpy.sign` is -1, 0 or 1, turns its argument into its absolute value, and is zero exactly for a zero argument |
| Geometry.MeanShift | qiskit_metal/renderers/renderer_gds/make_airbridge.py:158-159 | moving every element by `d` moves the `numpy.average` by `d`, which is why re-centring lands on the midpoint |
| Airbridging.Quantise | qiskit_metal/renderers/renderer_gds/make_airbridge.py:129-132 | `round(v / precision) * precision` is a multiple of `precision`, at most half a grid step from `v` |
| Airbridging.SegmentOf | qiskit_metal/renderers/renderer_gds/make_airbridge.py:124-132 | segment `i` runs from `points[i]` to `points[i+1]`; all four coordinates are on the grid and within half a step of the given vertices |
| Airbridging.SegmentsMeet | qiskit_metal/renderers/renderer_gds/make_airbridge.py:126-132 | after quantisation, the end of segment `i` is the start of segment `i+1` |
| Airbridging.Length | qiskit_metal/renderers/renderer_gds/make_airbridge.py:140 | when `sqrt` is the non-negative root there, the length is non-negative and its square is `dx² + dy²` |
| Airbridging.UsableLength | qiskit_metal/renderers/renderer_gds/make_airbridge.py:141-146 | the segment length minus twice the larger of the fillet radius and the minimum spacing, hence no more than with either clearance alone |
| Airbridging.CountFrom | qiskit_metal/renderers/renderer_gds/make_airbridge.py:147-150 | the count loop, resumed at `n`, stops at some `r >= n` where `r` pitches no longer fit but `r - 1` do (or `r` is 1) |
| Airbridging.BridgeCount | qiskit_metal/renderers/renderer_gds/make_airbridge.py:147-150 | at least one bridge; `n` pitches exceed the usable length while `n - 1` pitches fit whenever `n >= 2` |
| Airbridging.BridgeCountIsLeast | qiskit_metal/renderers/renderer_gds/make_airbridge.py:147-150 | the count is the least `m >= 1` with `usable length < m · pitch` |
| Airbridging.NineAtPitchTwo | qiskit_metal/renderers/renderer_gds/make_airbridge.py:147-150 | a usable length of 9 at pitch 2 gives five bridges |
| Airbridging.Offsets | qiskit_metal/renderers/renderer_gds/make_airbridge.py:155-156 | `n` offsets whose neighbours differ by exactly one step |
| Airbridging.Recentre | qiskit_metal/renderers/renderer_gds/make_airbridge.py:152-159 | subtracting the average and adding the midpoint keeps every spacing and makes the average equal to the midpoint |
| Airbridging.SegmentRun | qiskit_metal/renderers/renderer_gds/make_airbridge.py:139-162 | one segment's run has the bridge count, is centred on the segment's midpoint in x and y, steps one pitch along the segment's direction, and every bridge has the segment's angle in degrees |
| Airbridging.ShortSegmentSingleBridge | qiskit_metal/renderers/renderer_gds/make_airbridge.py:141-162 | a segment whose usable length is below one pitch, negative included, gets exactly one bridge, at its midpoint |
| Airbridging.SegmentRuns | qiskit_metal/renderers/renderer_gds/make_airbridge.py:124-162 | one run per segment `0 .. len(points) - 2` |
| Airbridging.StraightPass | qiskit_metal/renderers/renderer_gds/make_airbridge.py:124-162 | the straight pass holds exactly as many placements as the segments' bridge counts add up to (`SumCounts`), so nothing follows the last segment's run, and at least one per segment |
| Airbridging.RunsPrefixLength | qiskit_metal/renderers/renderer_gds/make_airbridge.py:124-162 | the runs of the first `m` segments hold exactly the sum of those segments' bridge counts |
| Airbridging.StraightPassInOrder | qiskit_metal/renderers/renderer_gds/make_airbridge.py:124-162 | segment `i`'s run appears right after the runs of all earlier segments |
| Airbridging.AllShortSegments | qiskit_metal/renderers/renderer_gds/make_airbridge.py:124-162 | when no segment has room for a second bridge, the straight pass is exactly one bridge per segment, at each quantised midpoint |
| Airbridging.SegmentAngles | qiskit_metal/renderers/renderer_gds/make_airbridge.py:165 | `points_theta` holds one angle per segment, in route order, each the `arctan2` of that segment |
| Airbridging.ArcOffset | qiskit_metal/renderers/renderer_gds/make_airbridge.py:198-204 | the pull `fillet·(1 − abs c)·sign(c)` is zero when `c` is zero; for `c` in [-1, 1] and a non-negative fillet it has size exactly `fillet·(1 − abs c)` when `c` is non-zero, at most the fillet radius, and the sign of `c` |
| Airbridging.CornerPosition | qiskit_metal/renderers/renderer_gds/make_airbridge.py:192-204 | the corner bridge is the vertex pulled against the sign of the bisector's cosine and sine: unmoved on an axis whose component is zero, otherwise moved by exactly `fillet·(1 − abs component)`, and within one fillet radius on each axis when cosine and sine lie on the unit circle |
| Airbridging.CornerAt | qiskit_metal/renderers/renderer_gds/make_airbridge.py:171-205 | a corner bridge exists exactly when the incoming quantised segment is at least as long as the fillet radius and the minimum spacing; its angle is the mean of the two segment angles in degrees; its position is the vertex moved on each axis as `CornerPosition` states |
| Airbridging.Corners | qiskit_metal/renderers/renderer_gds/make_airbridge.py:169-171 | the corner loop visits each of the `len(points) - 2` interior vertices once, in order |
| Airbridging.CornerPass | qiskit_metal/renderers/renderer_gds/make_airbridge.py:169-206 | the corner pass adds no more bridges than there are interior vertices |
| Airbridging.CornerPassCount | qiskit_metal/renderers/renderer_gds/make_airbridge.py:169-206 | the corner pass holds exactly as many bridges as there are interior vertices that pass the length test |
| Airbridging.CornerPassInOrder | qiskit_metal/renderers/renderer_gds/make_airbridge.py:169-206 | the bridge of a passing interior vertex sits right after the bridges of the earlier vertices, so the pass keeps vertex order and gives each vertex its own slot |
| Airbridging.CornerPassMembership | qiskit_metal/renderers/renderer_gds/make_airbridge.py:169-206 | a placement comes out of the corner pass exactly when some interior vertex produced it |
| Airbridging.CornerPassAllLong | qiskit_metal/renderers/renderer_gds/make_airbridge.py:183-206 | when every incoming segment passes the length test, every interior vertex gets a bridge |
| Airbridging.Plan | qiskit_metal/renderers/renderer_gds/make_airbridge.py:118-208 | fewer than two vertices give no bridges; otherwise at least one per segment; the straight pass comes first and everything after it is exactly the corner pass (nothing when there is no interior vertex), so with `CornerPassCount` and `CornerPassInOrder` the tail holds one bridge per interior vertex that passes the length test, in vertex order |
| Airbridging.PlanOfOneSegment | qiskit_metal/renderers/renderer_gds/make_airbridge.py:124-208 | a two-vertex route gets exactly its single segment's run |
| Airbridging.FreshName | qiskit_metal/renderers/renderer_gds/make_airbridge.py:254-258 | the name is `initial_name` plus `k` ones, is not taken, and every shorter candidate is taken |
| AirbridgeFootprint.MakeBoxes | qiskit_metal/renderers/renderer_gds/airbridge.py:39-58 | the squares are `inner × inner` with inner edges one crossover length apart and outer edges flush with the bridge; the bridge is `crossover + 2·inner` by `inner`; the outer box clears the bridge by the buffer on every side; the shapes are symmetric about the origin; with non-negative sizes they nest |
| AirbridgeFootprint.Make | qiskit_metal/renderers/renderer_gds/airbridge.py:61-75 | three non-subtracted entries: the bridge on the bridge layer, the two squares on the square layer, the outer box on the outer layer |
| CoupledLineTee.PrimeLine | qiskit_metal/qlibrary/couplers/coupled_line_tee_custom.py:111-122 | the prime line is the centred run of `prime_length`, with a stub of `prime_down_length` rising from the left end (connection 0) or right end (connection 1); with a stub and any other connection it is left unbound |
| CoupledLineTee.PrimeEtchFollowsLine | qiskit_metal/qlibrary/couplers/coupled_line_tee_custom.py:124-138 | the prime etch centreline exists exactly when the line does, and differs from it only at the end without a stub, pushed outward by the gap when the termination is open |
| CoupledLineTee.CouplingSpaceBetweenEtches | qiskit_metal/qlibrary/couplers/coupled_line_tee_custom.py:160 | the secondary line's y puts the two etch edges exactly `coupling_space` apart |
| CoupledLineTee.SecondLine | qiskit_metal/qlibrary/couplers/coupled_line_tee_custom.py:159-167 | the secondary line starts at the shifted left end of the prime run, runs `second_length` in the flip direction, then drops `second_down_length` |
| CoupledLineTee.SecondEtchFollowsLine | qiskit_metal/qlibrary/couplers/coupled_line_tee_custom.py:169-181 | the secondary etch centreline differs from the line only at its first vertex, pushed away from the run by the gap when open |
| CoupledLineTee.MirrorNegatesX | qiskit_metal/qlibrary/couplers/coupled_line_tee_custom.py:159-181 | `mirror` reflects the secondary line and its etch in the y-axis and leaves the prime line and its etch unchanged |
| CoupledLineTee.Make | qiskit_metal/qlibrary/couplers/coupled_line_tee_custom.py:103-211 | fails exactly when the prime line is unbound; otherwise carries the four centrelines and registers `second_cpw` and `second_cpw_sub` always, and `prime_cpw` and `prime_cpw_sub` exactly when the prime is drawn |
| CoupledLineTee.EntryTable | qiskit_metal/qlibrary/couplers/coupled_line_tee_custom.py:203-211 | `prime_cpw` and `second_cpw` are paths along their centrelines with their own line's width and the common fillet; `prime_cpw_sub` and `second_cpw_sub` are subtracted polygons along the etch centrelines; the prime entries exist exactly when the prime is drawn |
| CoupledLineTee.PinTable | qiskit_metal/qlibrary/couplers/coupled_line_tee_custom.py:213-259 | the pins are, in order, `prime_out` and `prime_in` when the prime line is drawn (`prime_in` only when shorted), then `second_out` and `second_in` (`second_in` only when shorted), with no name repeated; prime pins have `prime_width` and secondary pins `second_width`; for each name, which two centreline vertices it uses in every case of `draw_prime`, stub side and termination |
| Cheesing.ErrorCheckingHoleDelta | qiskit_metal/renderers/renderer_gds/make_cheese.py:186-212 | 2 exactly for an unknown shape; for a rectangle 1 exactly when a spacing is at most the matching side; for a circle 1 exactly when a spacing is at most the diameter |
| Cheesing.ValidatorMeansBoxesApart | qiskit_metal/renderers/renderer_gds/make_cheese.py:196-212 | the validator accepts exactly when the shape is known and each spacing exceeds the full extent of the test box |
| Cheesing.GridBounds | qiskit_metal/renderers/renderer_gds/make_cheese.py:154-158 | the grid is the chip shrunk by `edge_nocheese` on every side, with the same centre, and inside the chip when the edge is non-negative |
| Cheesing.Arange | qiskit_metal/renderers/renderer_gds/make_cheese.py:439-446 | element `k` is `start + k·step`, and `k` is an index exactly when that value has not reached `stop` |
| Cheesing.ArangeShape | qiskit_metal/renderers/renderer_gds/make_cheese.py:439-446 | neighbours differ by the step, all values are on the near side of `stop`, and the list is empty exactly when `start` is already at or past `stop` |
| Cheesing.CentresLayout | qiskit_metal/renderers/renderer_gds/make_cheese.py:462-463 | the centre list has `len(xs)·len(ys)` entries, x outer and y inner: `(xs[i], ys[j])` is at index `i·len(ys) + j` |
| Cheesing.TestBox | qiskit_metal/renderers/renderer_gds/make_cheese.py:456-462 | four corners in lower-left, lower-right, upper-right, upper-left order, `2·sx` by `2·sy`, centred on the hole centre |
| Cheesing.KeptHolesAreClearCentres | qiskit_metal/renderers/renderer_gds/make_cheese.py:461-473 | a hole is placed exactly at grid centres whose test box the keepout test rejects, and the placed holes keep the grid's order |
| Cheesing.ApplyCheesing | qiskit_metal/renderers/renderer_gds/make_cheese.py:169-184 | the library is untouched exactly when the validator objects; a zero spacing makes `arange` fail; otherwise the placed holes are exactly the kept holes, an order-preserving subsequence of the grid whose every test box is clear |
| Cheesing.AcceptedCheesingPlacesClearHoles | qiskit_metal/renderers/renderer_gds/make_cheese.py:175-184 | with non-negative hole sizes an accepted configuration has positive spacings, builds the grid, and places exactly the clear centres |

## Left out

- Floating point is not modelled. All arithmetic is exact over `real`, so
  rounding of `x / precision`, `n * pitch` and the averages is not followed.
- numpy's `sqrt`, `arctan2`, `cos`, `sin` and `degrees` are parameters. Properties that depend on
  their values hold under a pointwise assumption at the argument they use.
- Airbridging.Length: states the Euclidean length only where `sqrt` returns the non-negative root.
- Airbridging.CornerPosition: bounds the distance to the vertex by one fillet radius only
  where the bisector's cosine and sine lie on the unit circle and the fillet is
  non-negative. The exact pull, its bound and its direction are stated only where the
  component lies in [-1, 1] and the fillet is non-negative.
- Airbridging.CornerAt: inherits the same conditions from `CornerPosition`.
- Straight-pass placements carry a fourth `None` element in the code and corner placements
  do not. The model keeps only position and angle.
- Reading the route's vertices and fillet from the design (`get_points`, `parse_value`) is
  left out. It is design plumbing.
- `ab_placement_to_df` and `make_uniform_airbridging_df` are left out. They only turn
  placements into pandas frames, and as written they do not work:
  - `ab_placement_to_df` takes no `self`, never fills its lists, and uses an unimported
    `draw`;
  - `make_uniform_airbridging_df` iterates frame columns and returns only the last frame.
- `config.py` is not part of this model. It holds renderer and GUI configuration
  dictionaries.
- Logging and warnings, such as the warning for a degenerate cheesing grid, are left out.
- Instantiating, querying and deleting the temporary component around the fresh-name loop
  is left out. It is design plumbing.
- Airbridging.FreshName: takes the set of existing names as given. The code reads it
  from `self.design.component.keys()` (make_airbridge.py:256), while the rest of the file
  reads `self.design.components` (line 115). If the design object has no `component`
  attribute, the loop is never reached. The design class is not part of this model, so
  this cannot be settled here.
- Airbridging.ValidParams: also excludes routes with a non-positive pitch in which no
  segment's usable length reaches the pitch. The code terminates on those with one
  bridge per segment. The model does not cover them.
- The rotation by `orientation` and the translation to `pos_x, pos_y` in both components
  are left out. Pins and boxes are stated in the component's own frame, and picking
  vertices commutes with moving all of them.
- `draw.rectangle`, `draw.union` and the other geometry helpers are not part of this model.
  A rectangle is modelled as its bounding box, and a union as the list of its parts.
- The shapely buffering of the tee's etch centrelines into polygons is left out. This
  covers the "smart angle" fillet buffers and intersections, and the pin normals
  (`input_as_norm`). Only the centrelines the buffers start from are modelled.
- Cheesing: building the hole polygon, the gdspy cells and booleans, the masks, the
  logging, and the unused triangle `boundary` are left out. They are library
  manipulation.
- Cheesing: the placed holes are modelled as their centres. Each `CellReference` to the
  one-hole cell is placed at such a centre. The `one_hole_cell is not None` test always
  passes once `_hole_to_lib` has run, so it is not modelled.
- Cheesing.ApplyCheesing: a zero spacing is reported as `StepError`. The library changes
  `numpy.arange` would leave behind before raising are not modelled.
