# Rotating particle Christmas tree — a Dafny model

`tree.py` draws an animated Christmas tree as a cloud of coloured points.

- **Style.** A palette is picked from a fixed table of six styles. Unknown ids fall back to style "1".
- **Scene.** The scene is built once:
  - 2500 trunk points;
  - eight stacked layers of foliage (seven bulging cylinders and a cone);
  - 75 ornaments per layer;
  - an optional ribbon spiral of 150 points per layer;
  - 50 sparkle points between the cone tip and the star;
  - the star apex with three glow halos.

  Each point becomes a row of nine numbers: position, RGB, opacity, size, and a star flag.
- **Snow.** 500 snowflakes fall and wrap around from -1.2 back to 1.6.
- **Frame.** Every frame:
  - the camera angle advances by 0.08 rad;
  - tree points and visible snow are projected with a depth factor `1 / (2.4 - z_rot)`;
  - all rows are sorted back to front;
  - the rows are split into the ordinary layer and the star layer, and the star layer is drawn last.

The model has six modules:

| module | file | contents |
|---|---|---|
| `Styles` | `styles.dfy` | the palette registry and its lookup |
| `Geometry` | `geometry.dfy` | layer grid, bands, radius profiles |
| `Scene` | `scene.dfy` | the particle inventory (`build_scene`) and the row encoding (`_process_data`) |
| `Snow` | `snow.dfy` | the snow field and its per-frame step |
| `Frame` | `frame.dfy` | rotation, projection, snow culling, depth sort, star/normal split, one frame |
| `RealArith` | `arith.dfy` | small real-arithmetic lemmas |

Arithmetic is exact (`real`). Random numbers and the cosine/sine of random angles are inputs:

- A `Scene.Sampler` supplies, for point k of layer i of a group, unit draws in [0, 1).
- `uniform(lo, hi)` becomes `lo + (hi - lo) * u`.
- The square root of the radius draw is a `root` value with `root * root` equal to the draw.
- The angle is a (cos, sin) pair on the unit circle.
- `random.choice` is an index into a non-empty list.

`to_rgba` is a function parameter. A frame's rotation is supplied as its cosine and sine.

## Model

| member | source | states |
|---|---|---|
| Styles.Lookup | tree.py:93 | a registered id yields its own palette, any other id yields palette "1"; the result is always one of the registered palettes |
| Styles.Active | tree.py:9-93 | the palette in use is style "6", which draws a ribbon and has non-empty colour lists |
| Styles.LookupRibbon | tree.py:18-91 | every palette the lookup can return has non-empty foliage and ornament lists, and exactly style "3" has no ribbon |
| Geometry.Linspace | tree.py:121 | the k-th of n evenly spaced values starts at `start`, ends at `stop` when n > 1, and always lies between the two |
| Geometry.LayerEdges | tree.py:121 | the nine layer edges run from -0.5 to 1.25 in steps of 0.21875 |
| Geometry.StarHeight | tree.py:277 | the star sits 0.28 above the grid's top edge, at 1.25 + 0.28 |
| Geometry.LayerBand | tree.py:123-241 | every band of layer i is non-empty and starts above the layer's lower edge; the bands of layers 0 to 6 end below the next edge; the top layer's bands end at least 0.02 below the star and may reach above the grid's top edge |
| Geometry.BandsStack | tree.py:123-241 | every band of layer i lies strictly below every band of layer i + 1, so layers never overlap |
| Geometry.MaxRadiusShrinks | tree.py:137-149 | layer radii are positive, at most 1.6, and strictly decrease upward, the cone (0.7 of the layer below) included |
| Geometry.RelHeight | tree.py:154 | relative height within a proper band is in [0, 1] and scales back to the offset from the band bottom |
| Geometry.CentreDistance | tree.py:168 | the distance from the band centre, as a fraction of the half-width, is in [0, 1] inside the band |
| Geometry.MaxRadius | tree.py:136-149 | defines the largest radius of layer i: 1.6 (1 - i/7 * 0.8) for a cylinder, and 0.7 of the layer below for the cone on top |
| Geometry.BaseRadius | tree.py:154-169 | defines the surface radius at height h: the cone narrows linearly to 0 at its band top, a cylinder bulges as max (1 - 0.3 d²) with d the distance from the band centre |
| Geometry.BaseRadiusBounds | tree.py:156-169 | inside its band a cone's radius is in [0, max] and a cylinder's in [0.7 max, max] |
| Geometry.PartRadius | tree.py:214-270 | defines the radius of a part at height h: the surface radius for foliage, 0.98 of it for an ornament, 0.08 beyond it for the ribbon |
| Geometry.PartRadiusBounds | tree.py:214-220 | ornaments sit within the surface radius, the ribbon strictly outside it and at most 0.08 beyond the layer's largest radius |
| Scene.Trunc | tree.py:146 | Python's `int()` of a non-negative float is the largest integer not above it |
| Scene.Uniform | tree.py:111-113 | a uniform draw from [lo, hi) lands in [lo, hi) |
| Scene.Pick | tree.py:164 | a colour choice is always an element of the list chosen from |
| Scene.PerLayer | tree.py:146-230 | the per-layer counts after `//` and `int()`: 1000 foliage points per cylinder and 1200 in the cone, 75 ornaments and 150 ribbon points per layer |
| Scene.TrunkPoint | tree.py:109-117 | defines a trunk point: height uniform in [-0.8, -0.2), radius uniform in [0, 0.28), trunk colour, size 18, opacity 1 |
| Scene.LeafColour | tree.py:159-171 | a foliage colour is the star colour or one of the palette's foliage colours, and always a foliage colour in a cylinder layer |
| Scene.LeafHeight | tree.py:153 | defines a foliage height: uniform in the layer's foliage band |
| Scene.LeafRadius | tree.py:156-170 | defines a foliage radius: the surface radius at the point's height times the square root of a draw from [0.05, 1) in the cone or [0.1, 1) in a cylinder |
| Scene.LeafPoint | tree.py:152-179 | defines a foliage point: height uniform in its band, radius the surface radius times the square root of the draw, size uniform in [5, 15), opacity 0.9 |
| Scene.OrnamentPoint | tree.py:210-226 | defines an ornament: height uniform in its band, radius 0.98 of the surface, an ornament colour, size uniform in [22, 45), opacity 1 |
| Scene.RibbonPoint | tree.py:257-275 | defines ribbon point k: the k-th of the evenly spaced heights from band top to band bottom, radius 0.08 beyond the surface, ribbon colour, size 8 × ribbon width, opacity 0.6 |
| Scene.TransitionRadius | tree.py:280-284 | defines a sparkle radius: 0.02 at the bottom of the sparkle band shrinking linearly to 0 at its top, times the square root of a draw from [0.1, 1) |
| Scene.TransitionPoint | tree.py:279-295 | a sparkle point takes the star colour or one of the foliage colours |
| Scene.StarPoints | tree.py:297-305 | the star group is four points at (0, star height, 0) in the star colour, of which only the first, the apex, is marked |
| Scene.Body | tree.py:104-295 | defines the particle list up to the star: trunk, foliage layers, ornament layers, the ribbon layers only when the palette has a ribbon, and the sparkle, in that order |
| Scene.BuildScene | tree.py:104-307 | defines the scene as the body followed by the star group |
| Scene.Place | tree.py:175-179 | a point built from radius r and a unit-circle angle is at squared distance r² from the axis, at the given height, and unmarked |
| Scene.GroupSizes | tree.py:104-305 | the groups hold 2500 trunk, 7 × 1000 + 1200 foliage, 8 × 75 ornament, 8 × 150 ribbon, 50 sparkle and 4 star points |
| Scene.SceneSize | tree.py:104-307 | the particle table has 12554 rows when the palette draws a ribbon and 11354 otherwise |
| Scene.OneStarParticle | tree.py:297-305 | the apex is the only marked particle; it sits fourth from the end, on the axis at the star height |
| Scene.ToRow | tree.py:326-332 | a particle's row carries the flag 1.0 exactly when the particle is marked, and 0.0 exactly when it is not |
| Scene.ProcessData | tree.py:323-333 | row k keeps particle k's position, opacity and size, carries the RGB of its colour, and has flag 1.0 exactly for the marked particle and 0.0 otherwise |
| Scene.OneStarRow | tree.py:323-333 | after encoding, exactly one row, the apex at (0, star height, 0), has flag 1.0; all others have 0.0 |
| Scene.TrunkPlacement | tree.py:109-117 | trunk points lie between heights -0.8 and -0.2 within radius 0.28 of the axis |
| Scene.LeafPosition | tree.py:152-179 | whatever colour, size and opacity it takes, a foliage point lies in its band at squared distance no more than the surface radius squared, itself no more than the layer's largest radius squared |
| Scene.LeafPlacement | tree.py:152-179 | foliage lies inside its layer's band, no farther from the axis than the layer surface at its height |
| Scene.OrnamentPlacement | tree.py:210-226 | ornaments lie inside their band exactly on the circle at 0.98 of the surface radius |
| Scene.RibbonPlacement | tree.py:257-275 | ribbon points lie inside their band on the circle 0.08 outside the surface |
| Scene.TransitionPlacement | tree.py:279-295 | sparkle points lie between 0.02 and 0.005 below the star within 0.02 of the axis, with opacity in [0.7, 1] |
| Scene.SceneWithinReach | tree.py:104-307 | for any valid draws, every particle of the scene is within 1.68 of the vertical axis |
| Snow.InitFlake | tree.py:311-320 | a fresh flake has the snow colour and, for unit draws, x and z in [-2.5, 2.5), height in [-1.0, 1.5), speed in [0.02, 0.05), size in [4, 9) and opacity in [0.4, 0.8) |
| Snow.InitSnow | tree.py:309-321 | the initial field has 500 flakes, all in the snow colour |
| Snow.Step | tree.py:362-363 | a flake keeps everything but its height; its new height is its height minus its speed when that is at least -1.2, and 1.6 when it is below; it never ends below -1.2, and a falling flake in range stays in range |
| Snow.Advance | tree.py:361-363 | one frame steps every flake and keeps their number and order |
| Snow.InitSnowInRange | tree.py:309-321 | the initial field has 500 flakes with heights in [-1.0, 1.5), speeds in [0.02, 0.05), and x and z in [-2.5, 2.5) |
| Snow.SnowAfter | tree.py:361-363 | the field after n frames, one step per frame, keeps its number of flakes |
| Snow.SnowStaysInRange | tree.py:360-363 | a field whose flakes lie in [-1.2, 1.6] and fall stays so on every later frame, and only heights change |
| Snow.SnowHeightsBounded | tree.py:309-363 | from the initial field, every flake's height stays in [-1.2, 1.6] forever |
| Snow.WrapExample | tree.py:363 | a flake at -1.19 falling 0.02 reappears at 1.6 on the next frame |
| Frame.RotX | tree.py:352-366 | defines the rotated x coordinate, x cos a - z sin a, used for tree points and flakes alike |
| Frame.RotZ | tree.py:353-366 | defines the rotated depth, x sin a + z cos a, used for tree points and flakes alike |
| Frame.UnrotatedIsIdentity | tree.py:346-353 | frame 0 has angle 0, at which rotation leaves x and z unchanged |
| Frame.RotationKeepsAxisDistance | tree.py:352-353 | the rotation keeps every point's distance from the vertical axis |
| Frame.DepthFactor | tree.py:355-368 | the depth factor is the reciprocal of the distance 2.4 - z_rot: their product is 1 |
| Frame.DepthFactorSign | tree.py:368-371 | the depth factor is positive exactly for points in front of the camera (z_rot < 2.4) |
| Frame.TreeInFront | tree.py:352-358 | for any valid draws and any angle, every tree row lies in front of the camera and has a positive depth factor |
| Frame.ProjectRow | tree.py:380-386 | a projected tree row has the rotated depth in column 2 and keeps colour, opacity and the star flag |
| Frame.RenderTree | tree.py:380-386 | the projected tree has one row per particle row, in table order |
| Frame.SnowRow | tree.py:365-376 | a flake yields a row exactly when it is in front of the camera; that row holds its projected position, rotated depth, colour, opacity, scaled size and flag 0.0 |
| Frame.SnowRows | tree.py:360-378 | there are never more snow rows than flakes, and none is flagged as a star |
| Frame.SnowRowsConcat | tree.py:361-376 | culling keeps flake order: the rows of two runs of flakes concatenate |
| Frame.SnowRowsCount | tree.py:371-376 | there is exactly one snow row per visible flake, so none is lost when all are visible |
| Frame.FrameRows | tree.py:378-388 | defines the rows of a frame: the projected tree rows followed by the visible snow rows |
| Frame.InsertByDepth | tree.py:389 | inserting into a depth-sorted sequence keeps it sorted and adds exactly that row |
| Frame.DepthSort | tree.py:389 | the frame's rows are permuted into non-decreasing rotated depth |
| Frame.IsStar | tree.py:391 | defines the star test: the flag column exceeds 0.5 |
| Frame.Filter | tree.py:391-393 | a layer is no longer than the input and holds only rows whose star test matches |
| Frame.FilterMultiset | tree.py:391-393 | a layer holds every input row whose star test matches, as often as the input does, and no other row |
| Frame.FilterConcat | tree.py:391-393 | splitting preserves order: it distributes over concatenation |
| Frame.Partition | tree.py:391-393 | every row lands in exactly one of the two layers |
| Frame.FilterSorted | tree.py:389-393 | each layer of the depth-sorted rows is itself depth-sorted |
| Frame.FilterPermutation | tree.py:389-393 | a permutation of the rows permutes each layer |
| Frame.DrawOrder | tree.py:395-403 | the drawn rows are a permutation of the sorted rows in which no star row precedes an ordinary one |
| Frame.RenderFrame | tree.py:336-403 | one frame advances the snow, sorts tree rows plus visible snow by depth, and splits them into two depth-sorted layers that together hold every row; it holds one row per tree row plus one per visible flake |
| Frame.StarDrawnOnceAndLast | tree.py:388-403 | for the built scene, however depth ties are broken, the star layer is exactly the projected apex, on the axis with flag 1.0, and it is the last row drawn |

## Left out

- Drawing is not modelled: matplotlib calls, axis limits, background colour, the title text and font lookup, figure setup and GIF saving are output side effects.
- Randomness and trigonometry are inputs. Draws are unit reals and sines and cosines are unit-circle pairs. No distributional property is stated.
- Arithmetic is exact over the reals. IEEE rounding is not modelled, so `1.25 + 0.28` is exactly 1.53.
- `to_rgba` is a foreign colour parser and is a function parameter.
- Frame.ProjectRow, Frame.SnowRow and Frame.RenderFrame require that no point sit exactly at rotated depth 2.4. There numpy divides by zero and yields an infinite factor. `Frame.TreeInFront` shows that tree rows never get there; a flake could, with probability zero.
- Frame.DepthSort: `np.argsort` is not a stable sort. The frame's guarantees therefore quantify over every depth-sorted permutation rather than the one numpy picks.
- Snow state is a value, not a mutable list of dicts. Each frame returns the next field instead of updating it in place.
- The unused snow velocities `vx` and `vz` (always 0) are left out.
- The ribbon sweep angles (`t_vals`) come in only as their cosine and sine.
- The animation driver (`FuncAnimation`, frame count, font search) is left out.
- The sizes and positions of projected points are computed but not bounded; only their depth ordering and the star split are stated.
