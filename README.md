# Voxel tracer core in Dafny

This project models the core of a small Python voxel ray tracer. The core has four parts.

- **Vector and colour helpers** (`lib.py`), in module `Lib`:
  - `vec2`/`vec3` arithmetic, `mix`, `rotate` and in-place `normalize`;
  - `rgb.mix` and the hex conversions;
  - the flat-index conversions `index_vec2`/`vec2_index`/`index_vec3`/`vec3_index`;
  - `rand` and the clamp `normalize(x, min, max)`.
- **Voxel data model** (`data.py`):
  - `Lib` also holds the Python numeric semantics the core relies on: truncating `int()`, floor `divmod`, negative list indices, and `raise` as an `Outcome`.
  - `Voxels`: `Frame` is a sparse three-level dictionary `[x][y][z] -> Material`. It is modelled as a class whose `data` field is a nested `map`, and is proved to refine a flat `map<(int, int, int), Material>`.
  - `Sprites`: `Sprite` holds a list of frames. It covers:
    - bounds-checked writes and inclusive box fills;
    - the 90° rotation and mirror remaps;
    - the non-destructive overlay `mix`;
    - the tick-driven animation frame;
    - clones and `get_rotations`.
  - `Objects`: `Object` covers the integer bounding-box test, pitch-clamped rotation, facing-sprite selection and the one-camera-holder rule over the global object registry.
- **Default material and sky functions** (`builtin.py`), in module `Builtin`. They update the ray's colour, absorption, energy, velocity and hit count.
- **The two tracers**:
  - `TileTracer` models `init.py`'s `Camera` and the window's tile slots:
    - row bands per thread;
    - the per-ray step loop, with the neighbour-IOR reflection rule and early termination;
    - the object filter of `move`;
    - `update_tile` and the dispatch of pending slots.
  - `PixelCamera` models `camera.py`'s `Camera`:
    - flat-index pixel blocks per thread;
    - the skip rule;
    - the ray march through the pooled objects using the `builtin.py` material;
    - `move`, `rotate` and `pool`.

Vector components, mixing weights and all other float quantities are `real`. Python's `int(x)` is truncation toward zero (`Lib.Trunc`). Helpers the tracers call but `lib.py` does not define are read componentwise:
- `.int()` truncates each axis;
- scalar `*` and `/` scale each axis;
- `.max()` is the largest component;
- the free `mix(a, b, t)` is `a*(1-t) + b*t`.

## Model

Functions without a contract of their own are covered by the rows of the members stated about them:
- `TileTracer.TileRow` by `TileTracer.RowOwner`;
- `Sprites.Sprite.AnimFrame`, which is `FrameAt` on the sprite's fields, by `Sprites.FrameAt`;
- `Objects.PitchClamped` by `Objects.PitchClampRange` and `Objects.PitchClampKeepsAllowed`;
- `TileTracer.Stepped`, the step loop as a value, and its termination tests `HitStop` and `DistStop` by `TileTracer.Steps` and `TileTracer.SteppedClock`.

| member | source | states |
|---|---|---|
| Lib.Trunc | data.py:40-44 | `int()` of a float: the integer between 0 and x that is less than one away from x |
| Lib.PyIndex | data.py:87 | a list index is valid iff `-n <= i < n`; a negative one counts from the end |
| Lib.FloorDiv | lib.py:99 | floor quotient of `divmod`: `q*b <= a < q*b + b` for b > 0, mirrored for b < 0 |
| Lib.FloorMod | lib.py:99 | remainder of `divmod`: `a == q*b + r` with r in [0, b) for b > 0 and in (b, 0] for b < 0 |
| Lib.CeilDiv | init.py:48 | `math.ceil(a / b)` for b > 0: the least q with `a <= q*b` |
| Lib.ScreenDir | init.py:128-129 | `(-0.5 + x/n)*2` lies in [-1, 1) for 0 <= x < n and is -1 at x = 0 |
| Lib.Mod360 | lib.py:63 | `a % 360` on floats: in [0, 360) and differing from a by a whole number of turns |
| Lib.RoundHalfEven | data.py:267 | Python `round`: at most 0.5 away from x, and even on a tie |
| Lib.Vec2.Mix | lib.py:30-32 | bias 0 gives the vector itself, bias 1 gives the other vector, and any bias in [0, 1] puts each component between the two inputs' components |
| Lib.Vec3.Mix | lib.py:59-61 | bias 0 gives the vector itself, bias 1 gives the other vector, and any bias in [0, 1] puts each component between the two inputs' components |
| Lib.MixRealBetween | lib.py:31-32 | a blend `a*(1-t) + b*t` with t in [0, 1] lies between a and b |
| Lib.Vec3.Rotate | lib.py:62-63 | every component is `(a + b) mod 360`: in [0, 360) and a whole number of turns from `a + b` |
| Lib.NormalizedZero | lib.py:71-76 | normalising the zero vector leaves it unchanged |
| Lib.NormalizedUnitMax | lib.py:71-76 | normalising a non-zero vector makes its largest absolute component 1 and keeps every component's sign |
| Lib.NormalizedUnit | lib.py:71-76 | after normalising, a vector is zero or has largest absolute component 1 |
| Lib.NormalizedRescales | lib.py:71-76 | scaling the normalised vector back by the original maximum gives the original vector, so component ratios are kept |
| Lib.Normalized2UnitMax | lib.py:33-37 | the 2D normalisation of a non-zero vector has largest component 1, keeps signs, and scales back to the original |
| Lib.Vec3Cell.constructor | lib.py:41-44 | a new vector holds the given components |
| Lib.Vec3Cell.Normalize | lib.py:71-76 | in-place normalisation: the new components are the normalised old ones |
| Lib.Vec2Cell.constructor | lib.py:13-15 | a new 2D vector holds the given components |
| Lib.Vec2Cell.Normalize | lib.py:33-37 | in-place 2D normalisation: the new components are the normalised old ones |
| Lib.Rgb.Mix | lib.py:86-88 | bias 0 keeps the colour, bias 1 gives the other colour, and any bias in [0, 1] puts each channel between the two inputs' channels |
| Lib.MixChannelBetween | lib.py:88 | one truncated channel blend: the endpoints at bias 0 and 1, between the inputs for a bias in [0, 1] |
| Lib.HexDigit | lib.py:90 | a digit below 16 is written as one lowercase hex character |
| Lib.HexValueOfDigit | lib.py:90-93 | parsing a written hex digit gives the digit back |
| Lib.HexDigits | lib.py:90 | `%x` of a natural number is a non-empty string of lowercase hex digits, one digit below 16 |
| Lib.Format02xChannel | lib.py:90-93 | `%02x` of n in -15..255 is two characters that `int(_, 16)` parses back to n; for 0..255 they are the two hex digits of n |
| Lib.GetHex | lib.py:89-90 | `get_hex` has six characters when every channel is in -15..255, all lowercase hex digits when every channel is in 0..255 |
| Lib.ParseHexDigits | lib.py:93 | the digit part of `int(_, 16)`: a value in [0, 16^len) from a string that starts and ends with a hex digit |
| Lib.ParseUnsignedHex | lib.py:93 | an unsigned number, with or without a `0x` prefix, is non-negative, and below 16^len for at most two characters |
| Lib.ParseHexShort | lib.py:92-93 | `int(_, 16)` of a string of at most two characters that does not raise is in -15..255 |
| Lib.ParseHexLeadingSpace | lib.py:93 | whitespace in front of a number does not change what `int(_, 16)` gives or whether it raises |
| Lib.ParseHexNegative | lib.py:93 | a minus sign negates the number that follows it, and the signed string raises exactly when the unsigned one does |
| Lib.HexToRgb | lib.py:92-93 | `hex_to_rgb` raises on any string of at most four characters, and every channel it returns is in -15..255 |
| Lib.HexRoundTrip | lib.py:89-93 | `hex_to_rgb(get_hex(c)) == c` for every channel in -15..255, negative ones included, where `"%02x"` writes a sign and one digit |
| Lib.IndexVec2 | lib.py:98-100 | `index_vec2` gives whole-number coordinates whose index `x + y * width` is i, with x in [0, width) for a positive width and in (width, 0] for a negative one |
| Lib.Vec2Index | lib.py:102-103 | `vec2_index` is exactly `x + y * width` when that is a whole number |
| Lib.IndexVec3 | lib.py:105-108 | `index_vec3` gives whole-number coordinates with `x + y*w + z*w*h == i`, and x in [0, w), y in [0, h) for positive sizes |
| Lib.Vec3Index | lib.py:110-111 | `vec3_index` is exactly `x + y*w + z*w*h` when that is a whole number |
| Lib.Vec2IndexOfIndexVec2 | lib.py:98-103 | `vec2_index(index_vec2(i, w), w) == i` for every integer i and every non-zero w |
| Lib.IndexVec2OfVec2Index | lib.py:98-103 | `index_vec2(vec2_index(v, w), w) == v` for integral v with 0 <= x < w |
| Lib.Vec3IndexOfIndexVec3 | lib.py:105-111 | `vec3_index(index_vec3(i, w, h), w, h) == i` for every integer i and non-zero w, h |
| Lib.IndexVec3OfVec3Index | lib.py:105-111 | `index_vec3(vec3_index(v, w, h), w, h) == v` for integral v with 0 <= x < w and 0 <= y < h |
| Lib.Rand | lib.py:114-117 | `rand(0) == 0`; for a draw in [0, 1) the result lies in [-amp, amp) |
| Lib.NormalizeRange | lib.py:120-123 | the clamp is always in [0, 1], is 0 when min >= max, 0 below min, 1 above max, and `(x - min)/(max - min)` in between |
| Voxels.FlattenLookup | data.py:39-47 | the nested three-level lookup agrees with the flat map of all stored voxels at every position |
| Voxels.FlattenAgree | data.py:39-47 | a nested store is determined by its lookups: one that agrees with a flat map everywhere flattens to that map |
| Voxels.Written | data.py:50-68 | the abstract write: the written position holds the new material or nothing, every other position is unchanged |
| Voxels.Stored | data.py:50-68 | the nested write with its stack creation and pruning: lookup at the position gives the new material or none, every other lookup is unchanged |
| Voxels.StoredFlatten | data.py:50-68 | refinement: the flat view of the nested write equals the abstract write on the flat view |
| Voxels.ErasePrunesLazily | data.py:60-68 | erasing leaves an empty y-stack that a later erase removes, then the x-stack; no lookup sees the empty stacks |
| Voxels.Frame.constructor | data.py:25-26 | a new frame is empty |
| Voxels.Frame.Clear | data.py:28-29 | clearing empties the frame |
| Voxels.Frame.GetVoxel | data.py:39-47 | the voxel at the truncated position, or none |
| Voxels.Frame.SetVoxel | data.py:50-68 | the frame becomes the nested write at the truncated position (StoredFlatten gives its flat meaning) |
| Voxels.Frame.GetVoxels | data.py:31-37 | the item list names every stored voxel exactly once, each with its material, and nothing else |
| Sprites.InBoundsKey | data.py:165 | a position that passes the bounds check truncates to a cell inside the sprite |
| Sprites.InBoundsOfPos | data.py:165 | an integer cell passes the bounds check iff it lies inside the sprite, and truncates to itself |
| Sprites.StoredBounded | data.py:164-170 | writing inside the sprite keeps every stored voxel inside it |
| Sprites.HalfTurnIsTwoQuarters | data.py:125-128 | for equal X and Z sizes, the angle-2 remap is the angle-1 remap applied twice |
| Sprites.FourQuartersIdentity | data.py:125-126 | for equal X and Z sizes, four angle-1 remaps are the identity |
| Sprites.RotationBijective | data.py:125-130 | for equal X and Z sizes, each rotation remap maps the sprite's cells into themselves and is undone by the opposite turn |
| Sprites.FlipInvolution | data.py:139-144 | every flip remap keeps cells inside the sprite and is its own inverse |
| Sprites.ReplayOverlay | data.py:155-159 | writing the other frame's items over a frame gives the other's voxels where it has one, this frame's elsewhere |
| Sprites.ReplayRemap | data.py:121-131 | writing each listed voxel at its remapped cell into an emptied frame moves every voxel by a bijective remap |
| Sprites.RotationPermutes | data.py:125-130 | for equal X and Z sizes, the rotation remap is a bijection of the sprite's cells, with the opposite turn as its inverse |
| Sprites.FlipPermutes | data.py:139-144 | the flip remap is a bijection of the sprite's cells and its own inverse |
| Sprites.TwoQuarterTurns | data.py:116-131 | turning a frame by 90° twice gives the frame turned by 180° |
| Sprites.RotateLosesVoxel | data.py:121-124 | counterexample: a one-voxel frame of size 2x1x2 turned by 90° is not empty, while `rotate` as written leaves it empty |
| Sprites.FlipLosesVoxel | data.py:135-138 | counterexample: a one-voxel frame of size 2x1x1 mirrored on X is not empty, while `flip` as written leaves it empty |
| Sprites.FrameAt | data.py:98-101 | the animation frame is 0 when `frame_time` is 0 or there is at most one frame; otherwise it raises for an empty range and lies in the range (either direction) |
| Sprites.Sprite.constructor | data.py:72-79 | the size or a zero size, `max(count, 0)` fresh empty frames, and zero animation settings |
| Sprites.Sprite.Clear | data.py:86-88 | empties exactly the indexed frame; a bad index raises and changes nothing |
| Sprites.Sprite.AnimSet | data.py:92-95 | start and end are clamped to the frame count; the time is stored in milliseconds |
| Sprites.Sprite.GetVoxel | data.py:182-184 | the voxel of the given or animated frame, raising as the index or animation raises |
| Sprites.Sprite.GetVoxels | data.py:187-189 | the items of the given or animated frame, each stored voxel exactly once |
| Sprites.Sprite.SetVoxel | data.py:164-170 | outside the bounds on any axis nothing changes; otherwise only the indexed frame gets the write, and a bad index raises |
| Sprites.Sprite.SetVoxelArea | data.py:173-177 | every in-bounds cell of the inclusive box `[int(min), int(max + 1))` gets the material and no other cell or frame changes; a bad index raises only if the box holds an in-bounds cell |
| Sprites.Sprite.Rotate | data.py:116-131 | as written: nothing changes when X and Z sizes differ; otherwise every frame ends empty |
| Sprites.Sprite.Flip | data.py:134-145 | as written: every frame ends empty |
| Sprites.Sprite.RotateCorrected | data.py:116-131 | nothing changes when X and Z sizes differ; otherwise every frame holds exactly its old voxels at their rotated cells |
| Sprites.Sprite.FlipCorrected | data.py:134-145 | every frame holds exactly its old voxels at their mirrored cells |
| Sprites.Sprite.Mix | data.py:150-159 | a size mismatch changes nothing; otherwise each shared frame shows the other's voxels over its own, and frames past the shorter count are unchanged |
| Sprites.Sprite.Clone | data.py:82-83 | a fresh sprite with fresh frames holding the same size, voxels and animation settings |
| Sprites.Sprite.RotatedCopy | data.py:106-111 | a clone after `rotate`: empty frames when X and Z sizes are equal, the same voxels otherwise |
| Sprites.Sprite.GetRotations | data.py:105-112 | the sprite itself plus three fresh rotated clones; the original is untouched |
| Objects.PitchClampRange | data.py:244-250 | clamping keeps an angle in [0, 360) and, with a positive limit, lands it in `[0, min(180, limit)] ∪ [max(180, 360 - limit), 360)` |
| Objects.PitchClampKeepsAllowed | data.py:244-250 | an allowed pitch is left alone, so clamping twice is clamping once |
| Objects.RotatedClamped | data.py:241-250 | a zero delta keeps the rotation; otherwise all components are in [0, 360), the pitch is allowed when a limit is set, and the plain rotation is kept without one |
| Objects.Facing | data.py:267 | the facing index `round(yaw / 90) % 4` is one of the four sprite slots |
| Objects.FacingNearest | data.py:267 | the chosen slot is the quarter turn nearest the yaw (slot 0 from 315° on) |
| Objects.Registry.constructor | data.py:9 | the global object list starts empty |
| Objects.IndexOf | data.py:208 | finds the first occurrence of an object in the list, or none when it is absent |
| Objects.Object.constructor | data.py:193-204 | the object is appended to the registry with a zero box and no sprites; the start position is added to itself by `move`, so it doubles |
| Objects.Object.Remove | data.py:207-208 | the first registry entry of the object is removed; an absent object raises and changes nothing |
| Objects.Object.Distance | data.py:215-219 | distance to the box surface: non-negative, at least every per-axis excess, 0 iff the point is within `dist` on every axis |
| Objects.Object.PosRel | data.py:230-231 | the relative position added back to the point gives the box's max corner |
| Objects.Object.Move | data.py:234-238 | a zero offset changes nothing; otherwise the centre moves by the offset and the box follows the truncated centre |
| Objects.Object.Rotate | data.py:241-250 | the rotation becomes the wrapped, pitch-clamped rotation; nothing else changes |
| Objects.Object.SetSprite | data.py:255-263 | the given sprites fill the first slots; the box is the first sprite's size around the truncated centre, or a point without one; more than four sprites raise |
| Objects.Object.GetSprite | data.py:266-270 | the sprite of the facing slot, falling back to slot 0 when that slot is empty |
| Objects.Object.SetCamera | data.py:274-276 | afterwards exactly this object holds the camera offset; every other registered object holds none |
| Objects.IntersectsPoint | data.py:222-227 | for integer points and box corners, `intersects(p, p)` holds iff `mins < p <= maxs` on every axis |
| Builtin.Ray.constructor | camera.py:77-86 | a new ray: no colour, absorption 1, the given energy, position, velocity and life, step 0 and no hits |
| Builtin.HitColour | builtin.py:9-12 | the first hit takes the albedo; later hits blend toward it by the absorption (none at 0, all at 1) |
| Builtin.AbsorptionFactor | builtin.py:13 | the absorption factor lies in [0, 1] when density and metalicity are in [0, 1] and hits >= 0, and is 1 for zero density |
| Builtin.AbsorptionBounds | builtin.py:13 | the factor `(1 - d) + m/(1 + h)*d` is in [0, 1] for d, m in [0, 1] and h >= 0 |
| Builtin.HitEnergy | builtin.py:17-18 | energy after a hit is at most 1, non-negative for non-negative inputs and metalicity below 2, and `min(1, energy + emission)` for metalicity 1 |
| Builtin.BounceAxis | builtin.py:26-37 | one axis of the reflected copy keeps its magnitude and is negated iff it points into a face whose normal flag is set |
| Builtin.Bounced | builtin.py:25-37 | the reflected copy negates x iff (x > 0 and normal 0) or (x < 0 and normal 1), likewise y and z; no flags give the velocity back |
| Builtin.Jitter | builtin.py:23 | zero roughness gives no jitter |
| Builtin.HitVelocity | builtin.py:23-39 | the new velocity is normalised; IOR 0 applies only the jitter; IOR 1 gives the reflected copy |
| Builtin.Material | builtin.py:7-42 | colour, absorption, energy, velocity and hits become their hit values and hits grow by exactly the density; division by zero raises after the colour update |
| Builtin.SkyColour | builtin.py:46 | red is 127; for `vel.y <= 1` green is in [127, 191] and blue in [127, 255]; grey when looking down |
| Builtin.SkyEnergy | builtin.py:48 | sky energy is at most 1, at least `min(1, e + 0.25)`, so energy up to 0.75 rises by at least 0.25 |
| Builtin.MaterialSky | builtin.py:45-48 | the sky colour is blended in by the absorption, or copied when the ray has no colour; energy rises by the sky term; nothing else changes |
| TileTracer.Lines | init.py:48 | the band height `ceil(height / threads)`: `threads` bands cover the height with less than one band to spare |
| TileTracer.RowOwner | init.py:122-129 | every window row is traced by exactly one thread, at row `row - lines*t` of its tile |
| TileTracer.RowOverrun | init.py:124-127 | the bands trace fewer than `threads` rows past the bottom of the window, unguarded |
| TileTracer.NeighbourOffset | init.py:88-91 | the neighbour checked on an axis is at -1 iff `v*(ior - 0.5)*2 < 0`, else at +1 |
| TileTracer.ReflectAxis | init.py:95-100 | a neighbour with the same IOR keeps the component; otherwise it becomes `v*(1 - ior) + (-v)*ior`, reversing at IOR 1 and never growing for IOR in [0, 1] |
| TileTracer.ReflectShrinks | init.py:96 | the free `mix(v, -v, ior)` is `v*(1 - 2*ior)`, no larger than v in magnitude for IOR in [0, 1] |
| TileTracer.Probe | init.py:80-83 | an object yields nothing when the ray point is outside its box, raises when it has no sprite, and otherwise yields the facing sprite's voxel at the point relative to `maxs` |
| TileTracer.FirstProbe | init.py:79-105 | the object chosen is the first whose box holds the ray and whose facing sprite has a voxel there; every object before it yields nothing |
| TileTracer.FirstHit | init.py:79-105 | the object loop returns the first hit, so at most one material function runs per step |
| TileTracer.Finish | init.py:104 | after the material function the velocity is normalised and the step clock is untouched |
| TileTracer.ShadeStep | init.py:79-105 | one step's material part as a value: no hit keeps the ray, a raising lookup decides, otherwise the reflected (IOR non-zero) ray shaded and normalised, with the clock kept |
| TileTracer.Shaded | init.py:79-105 | the object loop and material call of one step compute exactly `ShadeStep`: no hit keeps the ray; a hit with IOR 0 runs the material alone; otherwise the neighbour reflection comes first; lookups that raise propagate |
| TileTracer.SteppedClock | init.py:78-113 | the stepped ray keeps its life, and its step stays between the start and the life; a ray already out of life comes back unchanged |
| TileTracer.Advance | init.py:112-113 | one step adds the velocity to the position and one to the step, leaving the life alone |
| TileTracer.Steps | init.py:78-113 | the loop returns exactly `Stepped` of the start ray (shade, hit test, distance test raising on a zero life, advance), runs at most `life - step` times and ends with the step within the life |
| TileTracer.Camera.constructor | init.py:45-51 | the band height, the proportions `((w + h)/2)/max(w, h)`, zero position and rotation, no objects |
| TileTracer.Camera.InitialRay | init.py:58-73 | the start ray is black with no hits, at step 0 with `dist_max - dist_min` of life, moving along a unit-maximum (or zero) direction, `dist_min` of it ahead of the camera |
| TileTracer.Camera.Trace | init.py:54-118 | zero proportions raise; otherwise the loop result `Stepped(InitialRay(..))` decides: its error propagates, or its ray is `last` and the colour is that ray's after the background function ran once (when set); that ray's life is `dist_max - dist_min` and its step within it |
| TileTracer.Camera.Tile | init.py:122-136 | the tile gains exactly the pixels of the band whose skip draw exceeds the skip setting; all other pixels are kept |
| TileTracer.Camera.Column | init.py:124-134 | one column of the tile: exactly the rows whose skip draw passes are painted |
| TileTracer.Camera.Move | init.py:140-146 | the new position and rotation, and in registry order exactly the objects with a first sprite within `dist_max + size.max()` |
| TileTracer.Visible | init.py:144-146 | the kept objects are exactly the registry's objects that have a first sprite and are in reach |
| TileTracer.TileSlots.UpdateTile | init.py:186-188 | only slot [sample][thread] is overwritten; a bad index raises and changes nothing |
| TileTracer.TileSlots.Dispatch | init.py:209-216 | every pending slot is sent out once, in sample then thread order, and emptied; the others are kept |
| TileTracer.TileSlots.DispatchRow | init.py:211-216 | the same for one sample's slots, in thread order |
| TileTracer.Cleared | init.py:212-216 | after dispatch no slot of the row is pending, and non-pending slots are unchanged |
| TileTracer.RowJobs | init.py:211-215 | the jobs of a row are exactly its pending slots, each with its sample and thread |
| TileTracer.Jobs | init.py:209-215 | the jobs of all samples are exactly the pending slots, each with its sample and thread |
| PixelCamera.TilePos | camera.py:131 | the integer position of a local index agrees with `index_vec2` |
| PixelCamera.Probes | camera.py:95-98 | the voxel lookup of every pooled object at the ray position, in pool order |
| PixelCamera.Found | camera.py:95-99 | the materials met in one pass; empty iff no object has a voxel there |
| PixelCamera.Pooled | camera.py:138-141 | the pooled objects are exactly the registry's active objects within `dist_max` of the camera |
| PixelCamera.Camera.constructor | camera.py:12-35 | every non-empty entry is kept as given and every empty entry takes its default (width 120, height 60, fov 90, dist_max 24, the CPU count for threads, 0 for the rest); the proportions are `((w + h)/2)/max(w, h)`; position and rotation are zero and there are no objects |
| PixelCamera.Camera.Move | camera.py:37-39 | the position moves by the offset; a zero offset leaves it unchanged |
| PixelCamera.Camera.Rotate | camera.py:41-52 | the rotation becomes the wrapped rotation with its pitch clamped by `max_pitch` |
| PixelCamera.Camera.Offsets | camera.py:56-58 | the viewport offsets of a window pixel are in [-1, 1), and (-1, -1) for index 0 |
| PixelCamera.Camera.NothingSkipped | camera.py:61-62 | with `skip == 0` no pixel is skipped for any draw >= 0 |
| PixelCamera.Camera.SkipMonotone | camera.py:61-62 | a pixel farther from the centre is skipped by every draw that skips a nearer one |
| PixelCamera.Camera.RayDir | camera.py:64-74 | the ray velocity is normalised: zero or with largest component 1 |
| PixelCamera.Camera.HitAll | camera.py:95-100 | one pass over the objects runs the material at every voxel met: hits grow by the sum of their densities; with none met the ray is unchanged |
| PixelCamera.Camera.Visit | camera.py:97-100 | a voxel runs the default material (hits grow by its density); no voxel changes nothing |
| PixelCamera.Camera.March | camera.py:94-108 | the step loop keeps the life and ends with the step between its start and the life; with no objects the ray's colour and energy are untouched |
| PixelCamera.Camera.DrawTrace | camera.py:54-113 | a pixel returns nothing iff the skip test holds; with no pooled objects the colour is the sky colour darkened by the missing energy |
| PixelCamera.Camera.Shine | camera.py:77-113 | with no pooled objects the ray's colour is the sky colour darkened by `1 - energy` |
| PixelCamera.Camera.Draw | camera.py:115-134 | the tile holds exactly the positions of the thread's in-window pixels not skipped, all with the blur alpha; none past the window is traced |
| PixelCamera.Camera.Gather | camera.py:138-141 | the pool keeps, in registry order, exactly the active objects within `dist_max` |
| PixelCamera.Camera.Pool | camera.py:136-143 | pools the objects, then returns one tile per thread, each holding exactly that thread's shown pixels |
| PixelCamera.Camera.DrawAll | camera.py:143 | one tile per thread, in thread order, each with exactly its shown pixels |
| PixelCamera.RowInWindow | camera.py:56-58 | a flat window index lies on a row and column of the window |
| PixelCamera.PixelOwner | camera.py:123-125 | every window pixel lies in the block of thread `index // pixels`, at local index `index % pixels` |
| PixelCamera.PixelOwnerUnique | camera.py:123-125 | local index i of thread t is window index `t*pixels + i` and of no other thread, so each pixel has one owner |
| PixelCamera.TileInside | camera.py:118-131 | a local index lands inside the `w x ceil(h / threads)` tile surface |
| PixelCamera.TilePosInjective | camera.py:131 | different local indices paint different tile positions |
| PixelCamera.TileToWindow | camera.py:123-131 | a local tile position is the window position shifted up by the rows of the earlier bands |

## Left out

- I/O and libraries are not modelled:
  - pygame surfaces, byte strings, `set_at`, the window, fonts, input, the FPS clock and compositing;
  - the configuration file (init.py:15-41, camera.py:14-16). Configuration values are constructor parameters, where 0 stands for an empty entry.
- Concurrency is left out. `mp.Pool`, `apply_async` and `pool.map` become sequential loops over threads (`Dispatch`, `DrawAll`).
- Randomness becomes parameters:
  - `random.random()` and `rand` draws are given per pixel and step (`Draws`, `PixelDraws`);
  - `random.seed` (static noise) has no effect on such draws and is left out;
  - `pg.time.get_ticks()` is the `ticks` argument.
- Trigonometry is not modelled. `vec3.dir` is the parameter `dirOf`.
- The FOV lens factor `fov * pi / 8` of init.py is a constructor parameter. camera.py uses `math.pi` as a written-out real.
- `math.dist(a, b) <= r` is compared as squared distances (`TileTracer.InReach`).
- `copy.deepcopy` is a value copy (`Sprite.Clone`). Materials are values, so sharing one material reference between voxels is not observable here. `Material.clone` and `Object.clone` are not modelled.
- `vec.normalize()` returns `None` in lib.py, yet init.py:62,104, camera.py:74 and builtin.py:39 assign its result. The model uses the normalised value at those points. That is what the surrounding comments intend; as written the ray velocity would become `None`. The in-place method itself is `Vec3Cell.Normalize`.
- init.py's `trace` runs `mat.function(ray, mat, settings)` on a ray of an older layout (`color`, no absorption). It is modelled with the material function as a parameter `Shade`: any function of the ray and the material that keeps `step` and `life`. A material function that changes the clock is not modelled. `Shade` is total, so a material function that raises is not modelled either; in init.py its exception would propagate out of `trace`.
- init.py's `trace` runs `data.background(ray, settings)`. The background is the optional parameter `bg`.
- camera.py calls `obj.get_voxel` and reads `obj.active`; neither is defined in data.py. Both are parameters (`voxelAt`, `active`). `obj_mat.function` is taken to be the `builtin.py` default `material`.
- camera.py's `bg` is taken to be `material_sky`. `if obj_pos:` is always true for a vector, so it is not a branch.
- Scene setup (`builtin.world`, mods), `default.py` and `Object.physics` are outside the core.
- Objects.Object.Intersects: stated through Objects.IntersectsPoint for integer points only. Boxes with fractional corners are not characterised.
- TileTracer.Neighbours: no contract of its own. Its use is stated inside Shaded.
- TileTracer.Camera.Tile: states which pixels are painted, not their colours (each is a Trace result).
- TileTracer.Camera.Column: likewise only which rows are painted.
- TileTracer.Stepped: the final colour and energy are those the material and background parameters give; no closed form over the scene is stated.
- PixelCamera.Camera.Draw: states which positions are painted and their alpha, not their colours.
- PixelCamera.Camera.DrawAll: likewise the positions per thread only.
- PixelCamera.Camera.Pool: likewise the positions per thread only.
- PixelCamera.Camera.March: states the step bound. The ray's colour and energy are stated only when no object is pooled.
- PixelCamera.Camera.DrawTrace: the colour is stated only when no object is pooled.
- PixelCamera.Camera.Shine: the colour is stated only when no object is pooled.
- PixelCamera.Camera.RayDir: states normalisation only. The lens and `dir` are not interpreted.
- Voxels.Frame.SetVoxel: states the nested write. Its flat-map meaning is the separate lemma Voxels.StoredFlatten.
- Lib.ParseHex: follows `int(s, 16)` for ASCII input and the whitespace characters `str.isspace` accepts: surrounding whitespace, one sign, an optional `0x` prefix and single underscores between digits. Non-ASCII decimal digits, which Python also accepts, are read as invalid, so `hex_to_rgb` raises on them where Python would not.
- Sprite sizes (`Sprites.Dims`) are whole numbers. In data.py a size is any `vec3` (data.py:73), compared and subtracted as floats (data.py:117, 126-130, 140-144, 151, 165). Fractional sizes are not modelled.
- Builtin.Jitter: states only the zero-roughness case.
- Float rounding is not modelled: all float arithmetic is exact real arithmetic.

## Findings

| source | as written | input that shows it | evidently intended | confidence | as-written member | corrected member |
|---|---|---|---|---|---|---|
| data.py:116-131 | `rotate` empties frame f through `clear(f)` (data.py:86-88, 28-29) before listing the voxels of that same frame, so nothing is written back | a sprite of size (2, 1, 2) with one voxel at (0, 0, 0), `rotate(1)` | every voxel moved to its rotated cell, here (0, 0, 1) | not executed | Sprites.Sprite.Rotate, Sprites.RotateLosesVoxel | Sprites.Sprite.RotateCorrected |
| data.py:134-145 | `flip` clears frame f before listing its voxels, so every frame ends empty | a sprite of size (2, 1, 1) with one voxel at (0, 0, 0), `flip(True, False, False)` | every voxel moved to its mirrored cell, here (1, 0, 0) | not executed | Sprites.Sprite.Flip, Sprites.FlipLosesVoxel | Sprites.Sprite.FlipCorrected |

`get_rotations` is modelled as written (`Sprites.Sprite.GetRotations` over `RotatedCopy`), so its clones inherit the empty frames.
