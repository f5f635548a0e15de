# lon-tawa core in Dafny

lon-tawa is a small gravity visualizer. It keeps a world of point weights, steps it with an Euler integrator, and draws it into a 1512×720 frame of packed `u32` colours. This project models the parts of it that have integer-flavoured, statable behaviour, and proves properties of the model:

- **Raster primitives** (`helper.dfy`, module `Helper`):
  - `plot_pixel` is a clipped write into the flat row-major frame.
  - `symetric_pixel` fans one circle offset out to up to eight reflected points.
  - `plot_arc` is the midpoint-style arc sweep built on `symetric_pixel`.
- **Line drawing** (`ui.dfy`, module `Ui`):
  - `dda_line` is a Bresenham-style walk over `i32` after flooring its endpoints.
  - `rectangle` is four `dda_line` calls.
- **Identity and colour** (`gravity.dfy`, module `Gravity`; `lcg.dfy`, module `Lcg`):
  - the process-wide id counter (`id`, `get_current_id`, `World::get_id_offset`);
  - the LCG colour generator `generate_semi_random_u32`;
  - the sentinel-colour rule of `PointWeight::new`.
- **Shape of `World::update`** (`Gravity`): forces are recomputed from a snapshot, then every body is integrated. The pairwise pull is a parameter.
- **Machine arithmetic** (`machine.dfy`, module `Machine`): `u32`/`usize` wrap-around, saturating float-to-integer casts, and Rust's truncating `/ 2`.

The frame is a value: a `seq<Color>` of length `Width * Height`, and every primitive returns the frame it leaves behind. The ghost predicate `Helper.Painted(before, after, pts, color)` says that `after` is `before` with exactly the on-canvas pixels of `pts` set to `color`. Every drawing contract is stated with it.

Each line is specified against `Ui.Segment.Points()`, the loop of `dda_line` restated as a recursion: the sequence of loop states `State(k)` stepped by `Next`, which makes the loop's two tests and updates. The independent characterisation is in the lemmas about that walk, `Ui.LineShape` and `Ui.BandDeterminesPixel`, which give the line's geometry without reference to the loop:
- it starts at the first endpoint and ends at the last;
- each point is a unit step toward the end;
- each point lies in the band closest to the ideal segment.

Some policy differences are made explicit:
- A negative `i32` coordinate in `dda_line` wraps to a huge `usize` and is dropped. A negative float coordinate in `symetric_pixel` saturates to 0 and lands on column or row 0.
- The colour generator is a bijection on 32-bit values. Ids that differ modulo 2^32 get different colours, and some id produces the sentinel `0xfafafafa` itself.

## Model

| member | source | states |
|---|---|---|
| Helper.PlotPixel | src/helper.rs:1-13 | For an in-canvas (x, y), only index y*1512 + x changes, and it now holds the colour; that index is below the frame length. Off-canvas coordinates leave the frame unchanged. Every other index is kept. |
| Helper.CoordOfIndex | src/helper.rs:11-12 | Row-major indexing with PITCH 1 and the pixel-of-index map are inverse on the canvas, so the written index identifies exactly one pixel. |
| Helper.NegativeCoordinateIsDropped | src/helper.rs:7-9 | A negative `i32` coordinate cast to `usize` never reaches the frame. |
| Helper.NegativeFloatCoordinateIsClamped | src/helper.rs:28-33 | A negative float coordinate saturates to 0 and is written to column 0 instead of being dropped. |
| Helper.WrappedPointPaintsSigned | src/helper.rs:6-13 | Painting the wrapped `usize` cast of a signed point is the same as painting the signed point. |
| Helper.SymmetricTargets | src/helper.rs:15-83 | The points of the enabled quadrants: two per enabled flag, each a reflection of the offset in an enabled quadrant, and every such reflection included. |
| Helper.SymmetricPixel | src/helper.rs:15-83 | The frame is painted with exactly the reflected points of the enabled quadrants. With every flag off the frame is unchanged. |
| Helper.PlotQuadrant | src/helper.rs:27-40 | One flag's block plots that quadrant's two reflections, and nothing when the flag is off. |
| Helper.BlockCallsReflect | src/helper.rs:27-82 | The literal argument pairs of each block, for example (cx−x0, cy−y0) and (cx−y0, cy−x0) for top_left, are the offset and its diagonal mirror in that quadrant. |
| Helper.PlotTwo | src/helper.rs:28-39 | Two `plot_pixel` calls on floored, saturated float coordinates paint exactly those two pixels where they are on the canvas, and nothing else. |
| Helper.PlotOffset | src/helper.rs:102-113 | One pass plots the enabled reflections of offset (x, y) around the centre and records the offset. |
| Helper.PlotArc | src/helper.rs:85-123 | With exact arithmetic the loop stops for every radius, and the last plotted offset lies within one step of the diagonal: its x is below (number of passes) + 1. Which passes lower x (the `t1` rule) is not in the contract. The plotted offsets start at (radius, 0), have y = k on pass k with y ≤ x ≤ radius, and x never rises and drops by at most one per pass. There are at most floor(radius)+1 passes. A negative radius plots nothing; radius 0 plots only (0, 0). The frame is painted with the symmetric points of exactly those offsets. |
| Helper.SweepExtend | src/helper.rs:101-121 | A pass that keeps y ≤ x ≤ radius and lowers x by at most one keeps the sweep's shape. |
| Ui.DdaLine | src/ui.rs:43-73 | The plotted points are exactly the reference walk between the saturated floored endpoints. The first is (floor x0, floor y0), the last is (floor x1, floor y1), and there are max(dx, dy)+1 of them. Only those on the canvas are coloured. |
| Ui.DdaLoop | src/ui.rs:57-72 | The loop leaves the frame painted with exactly the reference walk's points and stops right after plotting the end point. |
| Ui.DdaPass | src/ui.rs:63-71 | One pass compares the error once and steps x and y independently, which is one step of the reference walk; every intermediate value fits `i32`. |
| Ui.DdaPlot | src/ui.rs:58-61 | The plotted point is the walk's next point. The walk is complete exactly when that point is the end point. |
| Ui.PlotSigned | src/ui.rs:58 | The `i32`-to-`usize` cast followed by `plot_pixel` paints the signed point, dropping it when it is negative. |
| Ui.WalkStep | src/ui.rs:63-71 | One pass keeps the loop invariant: the error lies in the major axis's window and equals the initial error plus dx per row minus dy per column. It moves by 0 or sx in x and 0 or sy in y, and advances the major axis by one. |
| Ui.StateWalks | src/ui.rs:57-72 | Before its last pass the walk is a valid loop state that has moved exactly k times along the major axis. |
| Ui.PointFacts | src/ui.rs:57-72 | Pass k plots a point in the bounding box and in the band. The point is the end point exactly on the last pass, and the next point is one unit step away. |
| Ui.LineShape | src/ui.rs:43-73 | The walk has max(dx, dy)+1 points from start to end and reaches the end only at its last point. Consecutive points are unit steps toward the end, the major coordinate advances by one per point, and every point lies in the box and the band. |
| Ui.PointsEnds | src/ui.rs:44-60 | The walk's first point is the start and its last point, at index Length−1, is the end. |
| Ui.SinglePointLine | src/ui.rs:58-60 | A zero-length line plots exactly one pixel. |
| Ui.BandDeterminesPixel | src/ui.rs:54-71 | Two in-box points of the band with the same major coordinate are equal, so the walk is the one pixel per column (or row) nearest the ideal segment. |
| Ui.ArithStepX | src/ui.rs:63-71 | The error arithmetic of one pass on an x-major line keeps 0 ≤ err < dx and finishes both axes together. |
| Ui.ArithStepY | src/ui.rs:63-71 | The error arithmetic of one pass on a y-major line keeps −dy < err ≤ 0 and finishes both axes together. |
| Ui.HorizontalPoints | src/ui.rs:57-72 | A horizontal line plots the run of pixels between its endpoints, in order. |
| Ui.VerticalPoints | src/ui.rs:57-72 | A vertical line plots the run of pixels between its endpoints, in order. |
| Ui.Rectangle | src/ui.rs:75-80 | The frame is painted with exactly the four lines (x,y)→(x+w,y), (x,y)→(x,y−h), (x,y−h)→(x+w,y−h) and (x+w,y−h)→(x+w,y). |
| Ui.DrawSide | src/ui.rs:76-79 | Each `dda_line` call of `rectangle` adds its edge's walk to what is already painted. |
| Ui.CornersOnOutline | src/ui.rs:75-80 | All four corners, with the height subtracted from y, lie on the outline. |
| Ui.CornersPainted | src/ui.rs:75-80 | After `rectangle`, every corner on the canvas carries the colour. |
| Ui.RectangleExample | src/ui.rs:75-80 | `rectangle(10, 50, 20, 10)` draws the runs (10,50)–(30,50), (10,50)–(10,40), (10,40)–(30,40) and (30,40)–(30,50). |
| Machine.TruncHalf | src/ui.rs:54 | Halving rounds toward zero: the remainder is 0 or carries the dividend's sign. |
| Machine.TruncHalfIsNotEuclidean | src/ui.rs:54 | On −3, Rust's `/ 2` gives −1 while Euclidean division gives −2. |
| Machine.FloorAsI32 | src/ui.rs:44-47 | `floor() as i32` keeps every floor that fits `i32` and clamps the others to the nearer bound. |
| Machine.FloorAsUsize | src/helper.rs:30-31 | `floor() as usize` keeps every floor that fits, maps a negative floor to 0 and clamps a floor above `usize::MAX`. |
| Machine.I32AsUsize | src/ui.rs:58 | `x as usize` on an `i32` is congruent to it modulo 2^64: unchanged when non-negative, at least 2^64−2^31 when negative. |
| Lcg.SemiRandomU32 | src/gravity.rs:162-176 | `generate_semi_random_u32`: truncating to 32 bits and stepping three times is the single affine map x ↦ 0xaf490a95·x + 0xd1ccf6e9 (mod 2^32) of id mod 2^32. |
| Lcg.StepsCompose | src/gravity.rs:169-173 | Three wrapping steps x ↦ 1664525·x + 1013904223 compose into that affine map. |
| Lcg.Step | src/gravity.rs:169 | One `wrapping_mul` then `wrapping_add` step is x ↦ 1664525·x + 1013904223 modulo 2^32. |
| Lcg.UnstepStep | src/gravity.rs:169 | Subtracting the increment and multiplying by 0xfee058c5 undoes one step. |
| Lcg.StepUnstep | src/gravity.rs:169 | A step undoes the inverse step, so each step is a bijection on `u32`. |
| Lcg.RewindIterate | src/gravity.rs:169-173 | For any number n of steps, n inverse steps give back the starting value. |
| Lcg.IterateRewind | src/gravity.rs:169-173 | For any n, n steps after n inverse steps give back the value, so every value is reached. |
| Lcg.RecoverIdRoundTrip | src/gravity.rs:162-176 | The colour determines the id's low 32 bits. |
| Lcg.SemiRandomOnto | src/gravity.rs:162-176 | Every `u32`, the sentinel 0xfafafafa included, is the colour of some id. |
| Lcg.SemiRandomInjective | src/gravity.rs:162-176 | Two ids get the same colour if and only if their low 32 bits agree. |
| Lcg.FirstColours | src/gravity.rs:162-176 | Ids 0, 1 and 2 get 0xd1ccf6e9, 0x8116017e and 0x305f0c13. |
| Machine.Wrap32IsMod | src/gravity.rs:164-173 | The wrapped value of a `u32` operation, or of an `as u32` cast, is the exact result modulo 2^32. |
| Machine.TruncateToU32 | src/gravity.rs:164 | `id as u32` keeps id modulo 2^32 and leaves an id below 2^32 unchanged. |
| Machine.WrappingMul | src/gravity.rs:169 | `wrapping_mul` is the exact product reduced modulo 2^32. |
| Machine.WrappingAdd | src/gravity.rs:169 | `wrapping_add` is the exact sum reduced modulo 2^32. |
| Gravity.NextId | src/gravity.rs:152-156 | `id()` returns the counter before the increment. The counter rises by one, wrapping at 2^64. |
| Gravity.CurrentId | src/gravity.rs:158-160 | `get_current_id()` is the id the next `id()` call hands out. |
| Gravity.NewPointWeight | src/gravity.rs:178-195 | A new body gets the current id, and the counter advances. The sentinel colour 0xfafafafa becomes the generated colour of that id; any other colour is kept. Velocity and force are zero; position, mass and radius are as given. |
| Gravity.NewPointWeights | src/gravity.rs:178-195 | A run of creations makes one body per request, in order: each at rest with no force, with the requested position, mass and radius, and with the requested colour, except that a sentinel request gets the generated colour of the id that body received. |
| Gravity.NewIdsConsecutive | src/gravity.rs:152-160 | Without a counter wrap, successive creations get consecutive, strictly increasing, distinct ids, and the counter rises by their number. |
| Gravity.IdOffset | src/gravity.rs:17-19 | The offset plus the number of objects is the current counter; the `usize` subtraction needs the counter to be at least that number. |
| Gravity.FreshRunIds | src/gravity.rs:152-160 | The counter starts at 0, so the bodies of a first run of creations get ids equal to their indices, and the id offset is 0. |
| Gravity.IdOffsetIsFirstId | src/gravity.rs:17-19 | For a world created by one run of creations, the offset is the first id, so each object's id minus the offset is its index. |
| Gravity.Update | src/gravity.rs:20-48 | The two loops compute the reference step: every force from the snapshot taken before the update, then every body integrated. |
| Gravity.ComputeForces | src/gravity.rs:21-41 | The first loop overwrites every body's force with its net force from the snapshot and changes nothing else. |
| Gravity.Contribution | src/gravity.rs:30-38 | A snapshot entry carrying the body's own id contributes nothing. |
| Gravity.NetForce | src/gravity.rs:26-39 | Summed from zero, the net force over a snapshot whose entries all carry the body's own id is zero. |
| Gravity.SumPulls | src/gravity.rs:26-39 | The inner loop sums, from zero, the pulls of every snapshot entry with another id. |
| Gravity.Integrate | src/gravity.rs:43-47 | The Euler step changes only velocity and position, and the position moves by the new velocity (not the old one) times the time step. |
| Gravity.IntegrateImpulse | src/gravity.rs:45 | The velocity update adds force/mass times the time step: the body's momentum grows by its force times the time step. |
| Gravity.IntegrateAll | src/gravity.rs:43-47 | The second loop applies the Euler step to every body with its new force. |
| Gravity.Step | src/gravity.rs:20-48 | The update keeps the number and order of bodies and each id, mass, radius and colour. Each new force is the net force from the world as it was. |
| Gravity.StepOverwritesForce | src/gravity.rs:26-40 | Forces are overwritten, not accumulated: two worlds that differ only in their current forces update to the same world. |
| Gravity.NetForceIgnoresMotion | src/gravity.rs:28-39 | The net force reads only ids, positions and masses. |
| Gravity.NetForceSkipsSameId | src/gravity.rs:30-32 | A snapshot entry carrying the body's own id contributes nothing, wherever it stands in the snapshot: removing it leaves the net force unchanged. |
| Gravity.LoneBody | src/gravity.rs:20-48 | A body alone in the world feels no force and drifts by its velocity times the time step. |
| Gravity.NetForceRemove | src/gravity.rs:28-39 | Removing one snapshot entry removes exactly its contribution. |
| Gravity.NetForcePermutation | src/gravity.rs:28-39 | Any permutation of the snapshot gives the same net force (in exact arithmetic). |
| Gravity.TotalForceVanishes | src/gravity.rs:20-41 | With an equal-and-opposite pull, the forces the update computes sum to zero. |
| Gravity.CrossAntisymmetric | src/gravity.rs:20-41 | The forces of one group of bodies on another are the reverse of the forces back. |
| Gravity.MomentumConserved | src/gravity.rs:20-48 | With an equal-and-opposite pull and nonzero masses, the update keeps the total momentum. |

## Left out

- Gravity numerics. `PointWeight::gravity` (src/gravity.rs:197-203) and the `normalize` and `distance` calls it and `update` make (src/gravity.rs:34-37, 200) are floating-point physics on glam's `DVec2`, a library outside this model. The pairwise force is the parameter `Pull`, and properties are stated for any pull. This includes the NaN that `normalize` gives for two bodies at the same position.
- Gravity.TotalForceVanishes: the equal-and-opposite property `Antisymmetric` is an assumption on the pull. It holds in exact arithmetic, but `G*m1*m2/d²` in f64 need not be exactly antisymmetric. The same applies to Gravity.MomentumConserved and Gravity.NetForcePermutation: f64 addition is not associative.
- Gravity.Update: requires every mass to be nonzero, because f64 division by zero gives an infinite or NaN velocity, which `real` cannot represent.
- Floating point in general: f64 values are modelled as `real`, so the rounding of every f64 operation is not modelled, nor are NaN and the infinities. This matters on the drawing paths too: `symetric_pixel` adds a fractional centre to an integer offset, and the f64 sum can round up across an integer where the exact sum does not (with cx = 1 − 2⁻⁵³ and an offset of 1, lon-tawa computes cx + 1 = 2.0 and plots column 2; the model floors 1.999… and plots column 1).
- Ui.DdaLine: requires `Ui.Segment.FitsI32` of the floored segment: dx ≤ `i32::MAX` on an x-major line (whose error stays in [−dy, dx)), and dx + dy ≤ `i32::MAX` on a y-major line. lon-tawa only needs each intermediate value to fit `i32`. The y-major bound is stronger than that and excludes some lines lon-tawa draws without overflow; for example the diagonal with dx = dy = 1.2·10⁹ keeps its error at −6·10⁸, and its lowest intermediate is −1.8·10⁹. A line that does overflow panics in a debug build and wraps in a release build; neither behaviour is modelled.
- Ui.Rectangle: requires each of its four lines to meet the Ui.DdaLine bound.
- Helper.PlotArc: the plotted offsets are a ghost result, and the painted frame is stated through them. The loop's error term `t1` is run as in lon-tawa, but no ensures says which passes lower x: a sweep that never lowers x, or one that stops a pass early, meets the same contract. No lemma ties `t1` to the ideal circle.
- Helper.PlotArc: lon-tawa's loop never ends for a NaN or +∞ radius, because `x < y` stays false (for +∞, `t2` becomes NaN and x never drops). Nor does it end for a finite radius of 2^54 or more: there `x -= 1.` rounds back to x (1e17 − 1.0 == 1e17 in f64), and `y += 1.` stops growing at 2^53, so `x < y` never becomes true. `real` has no NaN or infinity, and its `+ 1.0` and `− 1.0` are exact, so the model's loop always ends.
- The frame is a value (`seq<Color>`) returned by each primitive, not a mutable `&mut [u32]`. `IsFrame` fixes the frame at exactly 1512×720 entries. lon-tawa accepts any slice: it writes into a longer one without trouble, and panics only when an in-canvas write falls past the end of a shorter one.
- `World::draw`, `PointWeight::draw` and the vector overlays (src/gravity.rs:51-137, 206-215): drawing glue with f64 coordinate mapping.
- `Button`, `UserInterface`, the `Text` renderer and the `Drawable` trait (src/ui.rs:6-41, 82-100): UI glue. `Text` is not part of this model.
- `usize` is 64 bits (`Machine.UsizeModulus`): the id counter wraps at 2^64 and `usize::MAX` is 2^64 − 1. On a 32-bit target the counter would wrap at 2^32.
- Atomic memory ordering of `COUNTER`. The counter is a sequential value (`Gravity.Counter`) threaded through the calls that use it.
