# Rover perception: segmentation, rover frame, world transform, map update

A Dafny model of the exact-arithmetic core of the perception step of a
sample-return rover (`code/perception.py`). One camera frame, already
rectified to a top-down view, is split into three binary masks: navigable
terrain, obstacles and rock samples. The masks are painted into the vision
overlay. Their set pixels are turned into rover-centred coordinates, and
those are rotated by the rover's yaw, scaled, shifted by its position,
truncated and clipped into world-map cells. Each cell hit gains one count in
its class's channel of the persistent world map.

Modules, in pipeline order:

- `Imaging` (`Imaging.dfy`): RGB pixels, images and masks as nested
  sequences; `ColorThresh` (`color_thresh`) and the three class thresholds.
- `RoverFrame` (`RoverFrame.dfy`): `Nonzero` (numpy's `nonzero()` as a raster
  scan) and `RoverCoords` (`rover_coords`) with exact real coordinates.
- `WorldTransform` (`WorldTransform.dfy`): `RotatePix`, `TranslatePix`,
  truncation toward zero (`Trunc`, numpy's `np.int_`), `Clip` (`np.clip`),
  `PixToWorld` and the scalar `PixToWorldFloat`.
- `Perception` (`Perception.dfy`): the class `RoverState` holding the world
  map and the vision overlay as `array3<int>`; `Accumulate` (the fancy-index
  `+= 1`), `ShowMask` (the overlay write) and `PerceptionStep` (steps 3 to 7
  of `perception_step` and the navigable points of step 8).

Behaviour of the code worth noting:

- Class membership is strict on both ends: a channel value equal to a bound
  never selects the pixel. So a byte pixel with a channel at 255 is never
  navigable, and one with a channel at 0 is never an obstacle
  (`SaturatedAndBlackChannelsExcluded`).
- The world-map update uses numpy fancy indexing. A cell named several times
  in one call gains exactly one, not one per point (`Accumulate`,
  `RepeatedPointsHitOnce`). Two separate calls each add one.
- The overlay channels are 0 = navigable, 1 = rock, 2 = obstacle, as
  assigned at lines 136-138. The comment at lines 139-141 gives another order.
- The bottom row of the image is one unit ahead of the rover (`x = H - row`
  gives `x = 1` for row `H - 1`), never 0.
- `W / 2` is a true division (Python 3), so an odd width gives half-integer
  `y` values.

## Model

| member | source | states |
|---|---|---|
| `Imaging.ColorThresh` | code/perception.py:21-34 | the mask has the image's shape, holds only 0 and 1, and is 1 at a pixel exactly when every channel `k` satisfies `low[k] < v < high[k]` |
| `Imaging.BoundsAreExclusive` | code/perception.py:27-29 | a channel equal to its lower or upper bound makes the mask 0 there |
| `Imaging.ColorThreshShape` | code/perception.py:23 | an `h` by `w` image yields an `h` by `w` mask |
| `Imaging.ClassesAreDisjoint` | code/perception.py:131-133 | no pixel lies in two of the navigable, obstacle and rock bands |
| `Imaging.MasksAreDisjoint` | code/perception.py:131-133 | at each pixel at most one of the three class masks is 1 |
| `Imaging.SaturatedAndBlackChannelsExcluded` | code/perception.py:131-132 | a byte pixel with a channel at 255 is never navigable; one with a channel at 0 is never an obstacle |
| `RoverFrame.NonzeroIsRasterScan` | code/perception.py:40 | `nonzero()` lists exactly the set pixels, each once, in strictly increasing row-major order |
| `RoverFrame.RoverCoords` | code/perception.py:38-45 | the two coordinate sequences have equal length, one entry per listed pixel |
| `RoverFrame.RoverCoordsCount` | code/perception.py:40-45 | the number of points equals the number of set pixels of the mask |
| `RoverFrame.RoverPointDeterminesPixel` | code/perception.py:43-44 | `x = H - row`, `y = W/2 - col` is one-to-one: two pixels with the same point are the same pixel |
| `RoverFrame.RoverCoordsSound` | code/perception.py:40-44 | every point is `(H - row, W/2 - col)` for some set pixel `(row, col)` inside the mask |
| `RoverFrame.RoverCoordsComplete` | code/perception.py:40-44 | every set pixel `(row, col)` appears as the point `(H - row, W/2 - col)` |
| `RoverFrame.RoverCoordsOrdered` | code/perception.py:40-44 | points come in raster order: `x` never increases, and within equal `x` the `y` strictly decreases, so none repeats |
| `RoverFrame.RoverCoordsBounds` | code/perception.py:43-44 | every point has `1 <= x <= H` and `W/2 - (W - 1) <= y <= W/2` |
| `RoverFrame.RoverCoordsOfBlankMask` | code/perception.py:40-45 | a mask with no set pixel yields two empty sequences |
| `WorldTransform.RotatePix` | code/perception.py:59-66 | the rotated sequences have the input's length |
| `WorldTransform.RotateAtYaw0` | code/perception.py:61-64 | with `cos = 1`, `sin = 0` every point stays where it is |
| `WorldTransform.QuarterTurnOfLeftPoint` | code/perception.py:61-64 | at 90 degrees the point `(0, 25)` goes to `(-25, 0)`: positive yaw turns counter-clockwise |
| `WorldTransform.RotationPreservesDistance` | code/perception.py:62-64 | when `cos² + sin² = 1`, `x'² + y'² = x² + y²` |
| `WorldTransform.RotationInverse` | code/perception.py:62-64 | rotating by the opposite angle returns the original point |
| `WorldTransform.TranslatePix` | code/perception.py:68-73 | each output sequence has its input's length |
| `WorldTransform.TranslatePixInverse` | code/perception.py:68-73 | `(t - pos) * scale` recovers each rotated coordinate, for `scale != 0` |
| `WorldTransform.Trunc` | code/perception.py:84-85 | the result is the integer part: for `v >= 0`, `t <= v < t + 1`; for `v < 0`, `t - 1 < v <= t` |
| `WorldTransform.TruncIsOdd` | code/perception.py:84-85 | truncation commutes with negation |
| `WorldTransform.Clip` | code/perception.py:84-85 | the result lies in `[lo, hi]`, equals `v` inside it, `lo` below and `hi` above |
| `WorldTransform.WorldIndex` | code/perception.py:84-85 | the cell lies in `[0, worldSize - 1]`; it is `floor(v)` for `0 <= v < worldSize`, 0 for `v < 0`, `worldSize - 1` for `v >= worldSize` |
| `WorldTransform.WorldIndexIdempotent` | code/perception.py:84-85 | truncating and clipping a cell index again changes nothing |
| `WorldTransform.PixToWorld` | code/perception.py:78-87 | both output sequences have the input length and every cell lies in `[0, worldSize - 1]` |
| `WorldTransform.PixToWorldAt` | code/perception.py:78-87 | each cell is the floor of the rotated, scaled and shifted coordinate when that lies in the map, 0 below it, `worldSize - 1` at or beyond it |
| `WorldTransform.PixToWorldAtYaw0` | code/perception.py:78-87 | at yaw 0 the transform is translate, then truncate and clip |
| `WorldTransform.PixToWorldIdentityPose` | code/perception.py:78-87 | at yaw 0, position (0, 0) and scale 1 the cell is the truncated, clipped rover-frame coordinate |
| `WorldTransform.PixToWorldExample` | code/perception.py:78-87 | rover at (10, 10), yaw 0, scale 10, 20-cell map: point (50, 0) lands in (15, 10), point (500, 0) is clipped to (19, 10) |
| `WorldTransform.WorldCoordFineOnGrid` | code/perception.py:95-98 | a fine coordinate is `k / prec` for a whole `k` in `[0, worldSize - 1]`: the clip is applied before dividing |
| `WorldTransform.PixToWorldFloatOnGrid` | code/perception.py:89-98 | both coordinates of `pix_to_world_float` lie on the `1/prec` grid within the map |
| `WorldTransform.PixToWorldFloatAtUnitPrecision` | code/perception.py:89-98 | with `prec = 1` the fine transform gives the cell of `pix_to_world` |
| `Perception.HitSetMembers` | code/perception.py:164-166 | a cell is in the hit set exactly when some index pair names it |
| `Perception.HitSetConcat` | code/perception.py:164-166 | the hits of two batches together are the union of their hits |
| `Perception.RepeatedPointsHitOnce` | code/perception.py:164-166 | listing every point twice in one update hits the same cells as listing it once |
| `Perception.OverlayPixelIsExclusive` | code/perception.py:136-138 | every overlay value is 0 or 255 and at most one channel of a pixel is lit |
| `Perception.ClassHitsInsideMap` | code/perception.py:155-166 | every cell a class lands in lies inside the map |
| `Perception.RoverState.Accumulate` | code/perception.py:164-166 | channel `ch` of every hit cell gains exactly one however often it is named; every other cell and channel is unchanged, and counts stay non-negative |
| `Perception.RoverState.ShowMask` | code/perception.py:136-138 | channel `ch` of the overlay becomes `mask * 255`; the other channels are unchanged |
| `Perception.RoverState.PerceptionStep` | code/perception.py:129-166 | overlay channels 0, 1, 2 hold the navigable, rock and obstacle masks times 255; map channels 0, 1, 2 gain one at each cell hit by obstacle, rock and navigable pixels and nothing elsewhere; the navigable rover-frame points are kept; the position is unchanged |

## Left out

- `perspect_transform` (lines 101-106) calls OpenCV's homography and warp; the rectified image is an input of `PerceptionStep`, and the source and destination quads with `dst_size` and `bottom_offset` (lines 116-127) only feed that call.
- The trigonometry of `rotate_pix` (line 61 and the `cos`/`sin` of lines 62-64): the model takes `cos(yaw)` and `sin(yaw)` as the input `Rotation` and is exact from there. At yaw 90 degrees floating-point `cos` is not exactly 0, so `QuarterTurnOfLeftPoint` holds only approximately in the source.
- `to_polar_coords` (lines 49-56, used at line 210) needs `sqrt` and `arctan2`; the model keeps the navigable rover-frame points (`navXs`, `navYs`) from which `nav_dists` and `nav_angles` are computed, one per navigable pixel.
- Floating-point rounding: coordinates are exact reals. In float64, `x / scale + pos` may round across an integer, so truncation can differ by one cell from the exact value.
- `Rover.worldmap` is a float array in the rover state; the model counts in integers, which is exact for the `+= 1` updates made here.
- WorldIndex: `np.int_` casts a float64 to a fixed-width C long (64 bits, or 32 on some platforms); a value beyond that range has no defined result (on x86 it becomes the most negative integer, which the clip sends to 0), whereas the model's unbounded truncation sends every `v >= worldSize` to `worldSize - 1`. The step never produces such values: `|x|` and `|y|` are at most the image size, the scale is 10 and the position lies in the map.
- ColorThresh: the default thresholds `(160, 160, 160)` and `(255, 255, 255)` of `color_thresh` (line 21) are not modelled; every call (lines 131-133) passes both bounds.
- Negative or too-large indices in the map update (numpy would wrap or raise): `Accumulate` requires indices inside the map, which `PixToWorld`'s clip always provides.
- `PixToWorldFloat` is modelled for one point: `np.float` at line 98 accepts only a one-element array. Its only caller is commented out.
- `PixToWorld` requires `worldSize >= 1` and `scale != 0`; `np.clip` with an empty range and division by zero have no meaning for the map.
- The rover state's lifecycle, `Rover.yaw` itself (only its `cos`/`sin` enter), the control loop, the display and the commented-out code (lines 6-18, 171-216, including the random "new pixel" scoring and the history bookkeeping) are not part of this model.
