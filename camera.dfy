// The per-pixel camera of camera.py. Each thread traces a band of window
// pixels by flat index; a pixel's ray marches through the pooled objects,
// runs the default material function at every voxel it meets, and finally
// the sky function.

module PixelCamera {
  import opened Lib
  import V = Voxels
  import opened Objects
  import B = Builtin

  /** `math.pi`: the double nearest to pi, written out. */
  const Pi: real := 3.141592653589793

  /** The configuration entries the camera reads; 0 stands for an entry left empty. */
  datatype Config = Config(
    maxPitch: real,
    width: int,
    height: int,
    ambient: real,
    staticNoise: int,
    fov: real,
    dof: real,
    skip: real,
    blur: real,
    distMin: int,
    distMax: int,
    terminateHits: real,
    terminateDist: real,
    threads: int)

  /**
   * The random draws one pixel consumes: the skip test, the DOF offset of
   * the lens, the three roughness draws of the material run at (step,
   * object index), and the two termination draws of each step.
   */
  datatype PixelDraws = PixelDraws(skip: real, dof: real, rough: (int, int) -> Vec3, hit: int -> real, dist: int -> real)

  /** A painted tile pixel: its colour and the alpha of the blur setting. */
  type Rgba = (Rgb, int)

  /** `x or d` on an int: the default replaces a zero. */
  function OrInt(x: int, d: int): int {
    if x != 0 then x else d
  }

  /** `x or d` on a float. */
  function OrReal(x: real, d: real): real {
    if x != 0.0 then x else d
  }

  /** The position in a tile of width `width` of flat index `i`: `index_vec2` in integers. */
  function TilePos(i: int, width: int): (p: (int, int))
    requires width != 0
    ensures IndexVec2(i, width) == Vec2(p.0 as real, p.1 as real)
  {
    (FloorMod(i, width), FloorDiv(i, width))
  }

  // ---------------------------------------------------------------------
  // Materials met by a ray

  /** What each object holds at a ray position: the voxel at the position relative to its far corner. */
  ghost function Probes(objects: seq<Object>, pos: Vec3, voxelAt: (Object, Vec3) -> Option<V.Material>): (ps: seq<Option<V.Material>>)
    reads set o | o in objects
    ensures |ps| == |objects|
    ensures forall k | 0 <= k < |objects| :: ps[k] == voxelAt(objects[k], objects[k].PosRel(pos))
  {
    seq(|objects|, k requires 0 <= k < |objects| reads set o | o in objects => voxelAt(objects[k], objects[k].PosRel(pos)))
  }

  /** The materials found, in order: the voxels that are there. */
  function Found(ps: seq<Option<V.Material>>): (ms: seq<V.Material>)
    ensures |ms| <= |ps|
    ensures ms == [] <==> forall k | 0 <= k < |ps| :: ps[k].None?
  {
    if |ps| == 0 then []
    else Found(ps[..|ps| - 1]) + (if ps[|ps| - 1].Some? then [ps[|ps| - 1].value] else [])
  }

  /** The materials found among a prefix come first among those found in the whole. */
  lemma {:induction false} FoundGrows(ps: seq<Option<V.Material>>, j: int)
    requires 0 <= j <= |ps|
    ensures Found(ps[..j]) <= Found(ps)
    decreases |ps|
  {
    if j == |ps| {
      assert ps[..j] == ps;
    } else {
      var init := ps[..|ps| - 1];
      assert ps[..j] == init[..j];
      FoundGrows(init, j);
    }
  }

  /** One more probe adds its voxel, if any. */
  lemma FoundStep(ps: seq<Option<V.Material>>, k: int)
    requires 0 <= k < |ps|
    ensures Found(ps[..k + 1]) == Found(ps[..k]) + (if ps[k].Some? then [ps[k].value] else [])
  {
    assert ps[..k + 1][..k] == ps[..k];
  }

  /** The fields of a ray at one moment. */
  datatype RaySnap = RaySnap(col: Option<Rgb>, absorption: real, energy: real, pos: Vec3, vel: Vec3,
                             step: int, life: int, hits: real)

  ghost function Snap(ray: B.Ray): RaySnap
    reads ray
  {
    RaySnap(ray.col, ray.absorption, ray.energy, ray.pos, ray.vel, ray.step, ray.life, ray.hits)
  }

  /**
   * The ray after part of a pass over the objects, having met the materials
   * `found`: position and clock untouched, hits grown by their densities,
   * nothing else changed if none was met, else a colour, bounded energy and
   * a normalised velocity.
   */
  ghost predicate AfterPass(ray: B.Ray, before: RaySnap, found: seq<V.Material>)
    reads ray
  {
    && ray.pos == before.pos && ray.step == before.step && ray.life == before.life
    && ray.hits == before.hits + Density(found)
    && (found == [] ==>
          ray.col == before.col && ray.absorption == before.absorption
          && ray.energy == before.energy && ray.vel == before.vel)
    && (found != [] ==> ray.col.Some? && ray.energy <= 1.0 && (ray.vel.IsZero() || MaxAbs3(ray.vel) == 1.0))
  }

  /** The total density of a run of materials. */
  function Density(ms: seq<V.Material>): real {
    if |ms| == 0 then 0.0 else Density(ms[..|ms| - 1]) + ms[|ms| - 1].density
  }

  lemma DensityAppend(ms: seq<V.Material>, m: V.Material)
    ensures Density(ms + [m]) == Density(ms) + m.density
  {
    assert (ms + [m])[..|ms|] == ms;
  }

  /** Non-negative densities add up to a non-negative total. */
  lemma {:induction false} DensityNonneg(ms: seq<V.Material>)
    requires forall k | 0 <= k < |ms| :: ms[k].density >= 0.0
    ensures Density(ms) >= 0.0
  {
    if |ms| > 0 {
      DensityNonneg(ms[..|ms| - 1]);
    }
  }

  /** The objects `pool` keeps from `s`, in order: active ones within `dist_max`. */
  ghost function Pooled(s: seq<Object>, active: Object -> bool, pos: Vec3, distMax: int): (v: seq<Object>)
    reads set o | o in s
    ensures forall o | o in v :: o in s && active(o) && o.Distance(pos) <= distMax as real
    ensures forall o | o in s && active(o) && o.Distance(pos) <= distMax as real :: o in v
    ensures |v| <= |s|
  {
    if |s| == 0 then []
    else
      var o := s[|s| - 1];
      var rest := Pooled(s[..|s| - 1], active, pos, distMax);
      if active(o) && o.Distance(pos) <= distMax as real then rest + [o] else rest
  }

  // ---------------------------------------------------------------------
  // The camera

  class Camera {
    const maxPitch: real
    const width: int
    const height: int
    const ambient: real
    const staticNoise: int
    const fov: real
    const dof: real
    const skip: real
    const blur: real
    const distMin: int
    const distMax: int
    const terminateHits: real
    const terminateDist: real
    const threads: int
    const proportions: real
    var pos: Vec3
    var rot: Vec3
    var objects: seq<Object>

    /** The window has a non-zero size and the pool a non-zero thread count. */
    ghost predicate Valid() {
      width != 0 && height != 0 && threads != 0
    }

    /**
     * Reads the configuration, replacing empty entries by their defaults;
     * `cpuCount` is the processor count used when no thread count is set.
     */
    constructor (c: Config, cpuCount: int)
      requires cpuCount > 0
      ensures Valid()
      ensures maxPitch == c.maxPitch && ambient == c.ambient && dof == c.dof && skip == c.skip && blur == c.blur
      ensures c.width != 0 ==> width == c.width
      ensures c.width == 0 ==> width == 120
      ensures c.height != 0 ==> height == c.height
      ensures c.height == 0 ==> height == 60
      ensures staticNoise == c.staticNoise && distMin == c.distMin
      ensures terminateHits == c.terminateHits && terminateDist == c.terminateDist
      ensures c.fov != 0.0 ==> fov == c.fov
      ensures c.fov == 0.0 ==> fov == 90.0
      ensures c.distMax != 0 ==> distMax == c.distMax
      ensures c.distMax == 0 ==> distMax == 24
      ensures c.threads != 0 ==> threads == c.threads
      ensures c.threads == 0 ==> threads == cpuCount
      ensures proportions * MaxI(width, height) as real == (width + height) as real / 2.0
      ensures pos == Vec3(0.0, 0.0, 0.0) && rot == Vec3(0.0, 0.0, 0.0) && objects == []
    {
      maxPitch := OrReal(c.maxPitch, 0.0);
      width := OrInt(c.width, 120);
      height := OrInt(c.height, 60);
      ambient := OrReal(c.ambient, 0.0);
      staticNoise := OrInt(c.staticNoise, 0);
      fov := OrReal(c.fov, 90.0);
      dof := OrReal(c.dof, 0.0);
      skip := OrReal(c.skip, 0.0);
      blur := OrReal(c.blur, 0.0);
      distMin := OrInt(c.distMin, 0);
      distMax := OrInt(c.distMax, 24);
      terminateHits := OrReal(c.terminateHits, 0.0);
      terminateDist := OrReal(c.terminateDist, 0.0);
      threads := OrInt(c.threads, cpuCount);
      var w := OrInt(c.width, 120);
      var h := OrInt(c.height, 60);
      var m := MaxI(w, h) as real;
      assert m != 0.0;
      proportions := ((w + h) as real / 2.0) / m;
      pos := Vec3(0.0, 0.0, 0.0);
      rot := Vec3(0.0, 0.0, 0.0);
      objects := [];
    }

    /** Moves by `ofs`; a zero offset leaves the position as it is. */
    method Move(ofs: Vec3)
      modifies this`pos
      ensures pos == old(pos).Add(ofs)
      ensures ofs.IsZero() ==> pos == old(pos)
    {
      if ofs.x != 0.0 || ofs.y != 0.0 || ofs.z != 0.0 {
        pos := pos.Add(ofs);
      }
    }

    /** Rotates by `delta`, wrapping into [0, 360) and clamping the pitch to `max_pitch`. */
    method Rotate(delta: Vec3)
      modifies this`rot
      ensures rot == RotatedClamped(old(rot), delta, maxPitch)
    {
      if delta.x != 0.0 || delta.y != 0.0 || delta.z != 0.0 {
        rot := rot.Rotate(delta);
        if maxPitch != 0.0 {
          var pitchMin := MaxR(180.0, 360.0 - maxPitch);
          var pitchMax := MinR(180.0, maxPitch);
          if rot.y > pitchMax && rot.y <= 180.0 {
            rot := rot.(y := pitchMax);
          }
          if rot.y < pitchMin && rot.y > 180.0 {
            rot := rot.(y := pitchMin);
          }
        }
      }
    }

    /** The viewport offsets of window pixel `index`: -1 at the left and bottom edge, below +1 at the other. */
    function Offsets(index: int): (o: (real, real))
      requires Valid()
      ensures width > 0 && height > 0 && 0 <= index < width * height ==>
        -1.0 <= o.0 < 1.0 && -1.0 <= o.1 < 1.0
      ensures width > 0 && height > 0 && index == 0 ==> o == (-1.0, -1.0)
    {
      var p := TilePos(index, width);
      RowInWindow(index, width, height);
      (ScreenDir(p.0, width), ScreenDir(p.1, height))
    }

    /** The skip test: pixels farther from the centre are skipped more often. */
    predicate Skipped(index: int, draw: real)
      requires Valid()
    {
      SkipTest(Offsets(index), draw)
    }

    /** `max(abs(ofs_x), abs(ofs_y)) * skip > draw`. */
    predicate SkipTest(ofs: (real, real), draw: real) {
      MaxR(AbsR(ofs.0), AbsR(ofs.1)) * skip > draw
    }

    /** With no skip setting no pixel is skipped, for any draw in [0, 1). */
    lemma NothingSkipped(ofs: (real, real), draw: real)
      ensures skip == 0.0 && draw >= 0.0 ==> !SkipTest(ofs, draw)
    {
    }

    /** A pixel farther from the centre is skipped for every draw that skips a nearer one. */
    lemma {:induction false} SkipMonotone(near: (real, real), far: (real, real), draw: real)
      requires skip >= 0.0 && MaxR(AbsR(near.0), AbsR(near.1)) <= MaxR(AbsR(far.0), AbsR(far.1))
      ensures SkipTest(near, draw) ==> SkipTest(far, draw)
    {
      var a, b := MaxR(AbsR(near.0), AbsR(near.1)), MaxR(AbsR(far.0), AbsR(far.1));
      RealMulMonotone(a, b, skip);
      assert a * skip <= b * skip;
    }

    /** The ray velocity of a pixel: lens distortion by the FOV, the DOF offset, then `dir`. */
    function RayDir(ofs: (real, real), dofDraw: real, dirOf: Vec3 -> Vec3): (d: Vec3)
      requires proportions != 0.0
      reads this
      ensures d.IsZero() || MaxAbs3(d) == 1.0
    {
      var lensFov := (fov + Rand(dof, dofDraw)) * Pi / 8.0;
      var lensX := ofs.0 / proportions * lensFov;
      var lensY := ofs.1 * proportions * lensFov;
      var rayRot := rot.Rotate(Vec3(0.0, -lensY, lensX));
      NormalizedUnit(dirOf(rayRot));
      Normalized(dirOf(rayRot))
    }

    /**
     * One step's pass over the objects: every object that holds a voxel at
     * the ray position runs the material function on the ray. The position
     * does not move during the pass, so the materials met are those at the
     * position the pass started from.
     */
    method HitAll(ray: B.Ray, voxelAt: (Object, Vec3) -> Option<V.Material>, rough: int -> Vec3)
      returns (r: Outcome<()>)
      modifies ray
      ensures r.Raise? ==> r.error == ZeroDivision
      ensures ray.pos == old(ray.pos) && ray.step == old(ray.step) && ray.life == old(ray.life)
      ensures r.Ok? ==> ray.hits == old(ray.hits) + Density(Found(old(Probes(objects, ray.pos, voxelAt))))
      ensures Found(old(Probes(objects, ray.pos, voxelAt))) == [] ==>
        && r.Ok? && ray.col == old(ray.col) && ray.absorption == old(ray.absorption)
        && ray.energy == old(ray.energy) && ray.vel == old(ray.vel) && ray.hits == old(ray.hits)
      ensures r.Ok? && Found(old(Probes(objects, ray.pos, voxelAt))) != [] ==>
        ray.col.Some? && ray.energy <= 1.0 && (ray.vel.IsZero() || MaxAbs3(ray.vel) == 1.0)
    {
      ghost var probes := Probes(objects, ray.pos, voxelAt);
      ghost var before := Snap(ray);
      var k := 0;
      while k < |objects|
        invariant 0 <= k <= |objects|
        invariant AfterPass(ray, before, Found(probes[..k]))
      {
        var obj := objects[k];
        var mat := voxelAt(obj, obj.PosRel(ray.pos));
        assert mat == probes[k];
        FoundStep(probes, k);
        var res := PassOne(ray, mat, rough(k), before, Found(probes[..k]));
        if res.Raise? {
          FoundGrows(probes, k + 1);
          return res;
        }
        k := k + 1;
      }
      assert probes[..|objects|] == probes;
      return Ok(());
    }

    /** One object of the pass: the materials met so far grow by the voxel found, if any. */
    method PassOne(ray: B.Ray, mat: Option<V.Material>, rough: Vec3, ghost before: RaySnap, ghost found: seq<V.Material>)
      returns (r: Outcome<()>)
      requires AfterPass(ray, before, found)
      modifies ray
      ensures r.Raise? ==> mat.Some? && r.error == ZeroDivision
      ensures r.Raise? ==> ray.pos == before.pos && ray.step == before.step && ray.life == before.life
      ensures r.Ok? ==> AfterPass(ray, before, found + (if mat.Some? then [mat.value] else []))
    {
      r := Visit(ray, mat, rough);
      if mat.Some? {
        DensityAppend(found, mat.value);
      } else {
        assert found + [] == found;
      }
    }

    /** The material function run for the voxel an object holds at the ray, if it holds one. */
    method Visit(ray: B.Ray, mat: Option<V.Material>, rough: Vec3) returns (r: Outcome<()>)
      modifies ray
      ensures r.Raise? ==> mat.Some? && r.error == ZeroDivision
      ensures ray.pos == old(ray.pos) && ray.step == old(ray.step) && ray.life == old(ray.life)
      ensures mat.None? ==>
        && r.Ok? && ray.col == old(ray.col) && ray.absorption == old(ray.absorption)
        && ray.energy == old(ray.energy) && ray.vel == old(ray.vel) && ray.hits == old(ray.hits)
      ensures r.Ok? && mat.Some? ==>
        && ray.hits == old(ray.hits) + mat.value.density
        && ray.col.Some? && ray.energy <= 1.0 && (ray.vel.IsZero() || MaxAbs3(ray.vel) == 1.0)
    {
      if mat.Some? {
        r := B.Material(ray, mat.value, rough);
      } else {
        r := Ok(());
      }
    }

    /**
     * The step loop of a pixel: a pass over the objects, then the two
     * termination draws, then one step along the velocity, until the
     * lifetime runs out.
     */
    method March(ray: B.Ray, voxelAt: (Object, Vec3) -> Option<V.Material>, draws: PixelDraws)
      returns (r: Outcome<()>)
      requires ray.step >= 0
      modifies ray
      ensures r.Raise? ==> r.error == ZeroDivision
      ensures ray.life == old(ray.life)
      ensures r.Ok? ==> old(ray.step) <= ray.step <= MaxI(old(ray.step), ray.life)
      ensures objects == [] ==>
        && r.Ok? && ray.col == old(ray.col) && ray.absorption == old(ray.absorption)
        && ray.energy == old(ray.energy) && ray.vel == old(ray.vel) && ray.hits == old(ray.hits)
    {
      while ray.step < ray.life
        invariant ray.life == old(ray.life)
        invariant old(ray.step) <= ray.step <= MaxI(old(ray.step), ray.life)
        invariant objects == [] ==>
          && ray.col == old(ray.col) && ray.absorption == old(ray.absorption)
          && ray.energy == old(ray.energy) && ray.vel == old(ray.vel) && ray.hits == old(ray.hits)
        decreases ray.life - ray.step
      {
        var step := ray.step;
        var hit := HitAll(ray, voxelAt, (k: int) => draws.rough(step, k));
        if hit.Raise? {
          return hit;
        }
        if ray.hits != 0.0 && terminateHits / ray.hits < draws.hit(ray.step) {
          break;
        } else if ray.step as real / ray.life as real > 1.0 - terminateDist * draws.dist(ray.step) {
          break;
        }
        ray.step := ray.step + 1;
        ray.pos := ray.pos.Add(ray.vel);
      }
      return Ok(());
    }

    /**
     * Traces window pixel `index`: None when the skip test skips it, else
     * the ray colour after the sky function, darkened by the missing energy.
     */
    method DrawTrace(index: int, voxelAt: (Object, Vec3) -> Option<V.Material>, dirOf: Vec3 -> Vec3,
                     draws: PixelDraws)
      returns (r: Outcome<Option<Rgb>>)
      requires Valid()
      ensures r.Raise? ==> r.error == ZeroDivision
      ensures r.Ok? ==> (r.value.None? <==> Skipped(index, draws.skip))
      ensures !Skipped(index, draws.skip) && proportions == 0.0 ==> r == Raise(ZeroDivision)
      ensures !Skipped(index, draws.skip) && proportions != 0.0 && objects == [] ==>
        var d := RayDir(Offsets(index), draws.dof, dirOf);
        r == Ok(Some(B.SkyColour(d.y).Mix(Rgb(0, 0, 0), 1.0 - B.SkyEnergy(ambient, d.y))))
    {
      var ofs := Offsets(index);
      if SkipTest(ofs, draws.skip) {
        return Ok(None);
      }
      if proportions == 0.0 {
        return Raise(ZeroDivision);
      }
      var dir := RayDir(ofs, draws.dof, dirOf);
      var col := Shine(dir, voxelAt, draws);
      if col.Raise? {
        return Raise(col.error);
      }
      return Ok(Some(col.value));
    }

    /**
     * The ray of one pixel from its velocity: it starts `dist_min` out and
     * lives `dist_max - dist_min` steps; after the march and the sky
     * function, its colour (always set by then) is darkened by the missing
     * energy.
     */
    method Shine(dir: Vec3, voxelAt: (Object, Vec3) -> Option<V.Material>, draws: PixelDraws) returns (r: Outcome<Rgb>)
      ensures r.Raise? ==> r.error == ZeroDivision
      ensures objects == [] ==> r == Ok(B.SkyColour(dir.y).Mix(Rgb(0, 0, 0), 1.0 - B.SkyEnergy(ambient, dir.y)))
    {
      var ray := new B.Ray(ambient, pos.Add(dir.Scale(distMin as real)), dir, distMax - distMin);
      var marched := March(ray, voxelAt, draws);
      if marched.Raise? {
        return Raise(marched.error);
      }
      B.MaterialSky(ray);
      return Ok(ray.col.value.Mix(Rgb(0, 0, 0), 1.0 - ray.energy));
    }

    /** The pixels of one thread's band: ceil(height / threads) rows of the window width. */
    function Pixels(): int
      requires threads > 0
    {
      CeilDiv(height, threads) * width
    }

    /** The window index of local index `i` of the band of `thread`. */
    function Index(thread: int, i: int): int
      requires threads > 0
    {
      thread * Pixels() + i
    }

    /**
     * The tile positions thread `thread` paints among its first `k` local
     * indices: those whose window index lies inside the window and whose
     * pixel the skip test lets through.
     */
    ghost function Shown(thread: int, k: int, draws: int -> PixelDraws): set<(int, int)>
      requires Valid() && threads > 0
    {
      set i | 0 <= i < k && Index(thread, i) < width * height &&
        !Skipped(Index(thread, i), draws(Index(thread, i)).skip) :: TilePos(i, width)
    }

    /**
     * Paints the tile of `thread`: every local index whose window index is
     * inside the window is traced, and the pixels not skipped get their
     * colour with the blur alpha.
     */
    method Draw(thread: int, voxelAt: (Object, Vec3) -> Option<V.Material>, dirOf: Vec3 -> Vec3,
                draws: int -> PixelDraws)
      returns (r: Outcome<map<(int, int), Rgba>>)
      requires Valid() && 0 <= thread < threads
      ensures r.Raise? ==> r.error == ZeroDivision
      ensures r.Ok? ==> r.value.Keys == Shown(thread, Pixels(), draws)
      ensures r.Ok? ==> forall p | p in r.value :: r.value[p].1 == Trunc(blur * 255.0)
    {
      var srf: map<(int, int), Rgba> := map[];
      ShownNone(thread, 0, draws);
      var alpha := Trunc(blur * 255.0);
      var pixels := Pixels();
      var i := 0;
      while i < pixels
        invariant 0 <= i <= MaxI(0, pixels)
        invariant srf.Keys == Shown(thread, i, draws)
        invariant forall p | p in srf :: srf[p].1 == alpha
      {
        var index := Index(thread, i);
        if index >= width * height {
          ShownStops(thread, i, draws);
          return Ok(srf);
        }
        var col := DrawTrace(index, voxelAt, dirOf, draws(index));
        if col.Raise? {
          return Raise(col.error);
        }
        if col.value.Some? {
          srf := srf[TilePos(i, width) := (col.value.value, alpha)];
        }
        ShownStep(thread, i, draws);
        i := i + 1;
      }
      if pixels < 0 {
        ShownNone(thread, pixels, draws);
      }
      return Ok(srf);
    }

    lemma ShownNone(thread: int, k: int, draws: int -> PixelDraws)
      requires Valid() && threads > 0 && k <= 0
      ensures Shown(thread, k, draws) == {}
    {
      forall p | p in Shown(thread, k, draws)
        ensures false
      {
      }
    }

    lemma ShownStep(thread: int, i: int, draws: int -> PixelDraws)
      requires Valid() && threads > 0 && i >= 0
      ensures Shown(thread, i + 1, draws) == Shown(thread, i, draws) +
        (if Index(thread, i) < width * height && !Skipped(Index(thread, i), draws(Index(thread, i)).skip)
         then {TilePos(i, width)} else {})
    {
    }

    lemma ShownStops(thread: int, i: int, draws: int -> PixelDraws)
      requires Valid() && threads > 0 && 0 <= i <= Pixels()
      requires Index(thread, i) >= width * height
      ensures Shown(thread, i, draws) == Shown(thread, Pixels(), draws)
    {
    }

    /** The filter of `pool`: the active objects within `dist_max` of the camera, in registry order. */
    method Gather(reg: Registry, active: Object -> bool)
      modifies this`objects
      ensures objects == Pooled(reg.objects, active, pos, distMax)
    {
      objects := [];
      var i := 0;
      while i < |reg.objects|
        invariant 0 <= i <= |reg.objects|
        invariant objects == Pooled(reg.objects[..i], active, pos, distMax)
      {
        var obj := reg.objects[i];
        assert reg.objects[..i + 1][..i] == reg.objects[..i];
        if active(obj) && obj.Distance(pos) <= distMax as real {
          objects := objects + [obj];
        }
        i := i + 1;
      }
      assert reg.objects[..|reg.objects|] == reg.objects;
    }

    /**
     * Keeps the active objects within `dist_max` of the camera, then draws
     * every thread's tile in thread order.
     */
    method Pool(reg: Registry, active: Object -> bool, voxelAt: (Object, Vec3) -> Option<V.Material>,
                dirOf: Vec3 -> Vec3, draws: int -> PixelDraws)
      returns (r: Outcome<seq<map<(int, int), Rgba>>>)
      requires Valid()
      modifies this`objects
      ensures objects == Pooled(reg.objects, active, pos, distMax)
      ensures r.Raise? ==> r.error == ZeroDivision
      ensures r.Ok? ==> |r.value| == MaxI(0, threads)
      ensures r.Ok? ==> forall t | 0 <= t < |r.value| :: threads > 0 && r.value[t].Keys == Shown(t, Pixels(), draws)
    {
      Gather(reg, active);
      r := DrawAll(voxelAt, dirOf, draws);
    }

    /** `pool.map(draw, range(threads))`: every thread's tile, in thread order. */
    method DrawAll(voxelAt: (Object, Vec3) -> Option<V.Material>, dirOf: Vec3 -> Vec3, draws: int -> PixelDraws)
      returns (r: Outcome<seq<map<(int, int), Rgba>>>)
      requires Valid()
      ensures r.Raise? ==> r.error == ZeroDivision
      ensures r.Ok? ==> |r.value| == MaxI(0, threads)
      ensures r.Ok? ==> forall t | 0 <= t < |r.value| :: threads > 0 && r.value[t].Keys == Shown(t, Pixels(), draws)
    {
      var tiles: seq<map<(int, int), Rgba>> := [];
      var t := 0;
      while t < threads
        invariant 0 <= t <= MaxI(0, threads)
        invariant |tiles| == t
        invariant forall u | 0 <= u < t :: threads > 0 && tiles[u].Keys == Shown(u, Pixels(), draws)
      {
        var tile := Draw(t, voxelAt, dirOf, draws);
        if tile.Raise? {
          return Raise(tile.error);
        }
        tiles := tiles + [tile.value];
        t := t + 1;
      }
      return Ok(tiles);
    }
  }

  // ---------------------------------------------------------------------
  // The pixel bands

  /** A flat index inside a window of positive size lies on one of its rows. */
  lemma {:induction false} RowInWindow(index: int, width: int, height: int)
    requires width != 0
    ensures width > 0 && height > 0 && 0 <= index < width * height ==>
      0 <= FloorMod(index, width) < width && 0 <= FloorDiv(index, width) < height
  {
    if width > 0 && height > 0 && 0 <= index < width * height {
      var q := FloorDiv(index, width);
      MulMonotone(height, q, width);
      MulMonotone(q + 1, 0, width);
    }
  }

  /** Every window pixel lies in the band of some thread: thread `index // pixels`, local index `index % pixels`. */
  lemma {:induction false} PixelOwner(width: int, height: int, threads: int, index: int)
    requires width > 0 && height > 0 && threads > 0 && 0 <= index < width * height
    ensures var pixels := CeilDiv(height, threads) * width;
      pixels > 0 && 0 <= FloorDiv(index, pixels) < threads && 0 <= FloorMod(index, pixels) < pixels
  {
    var lines := CeilDiv(height, threads);
    var pixels := lines * width;
    MulMonotone(1, lines, width);
    MulMonotone(height, lines * threads, width);
    assert pixels * threads == lines * threads * width;
    var q := FloorDiv(index, pixels);
    MulMonotone(threads, q, pixels);
    MulMonotone(q + 1, 0, pixels);
  }

  /** No other thread traces that pixel: local index `i` of thread `t` has window index `t * pixels + i`, and no other pair does. */
  lemma {:induction false} PixelOwnerUnique(width: int, height: int, threads: int, t: int, i: int)
    requires width > 0 && threads > 0
    requires 0 <= t < threads && 0 <= i < CeilDiv(height, threads) * width
    ensures var pixels := CeilDiv(height, threads) * width;
      FloorDiv(t * pixels + i, pixels) == t && FloorMod(t * pixels + i, pixels) == i
  {
    var pixels := CeilDiv(height, threads) * width;
    DivModUnique(t * pixels + i, pixels, t, i);
  }

  /** A local index of a band lands inside the tile: width columns, ceil(height / threads) rows. */
  lemma {:induction false} TileInside(width: int, height: int, threads: int, i: int)
    requires width > 0 && threads > 0 && 0 <= i < CeilDiv(height, threads) * width
    ensures 0 <= TilePos(i, width).0 < width && 0 <= TilePos(i, width).1 < CeilDiv(height, threads)
  {
    var q := FloorDiv(i, width);
    MulMonotone(CeilDiv(height, threads), q, width);
    MulMonotone(q + 1, 0, width);
  }

  /** Different local indices paint different tile positions. */
  lemma {:induction false} TilePosInjective(width: int, i: int, j: int)
    requires width != 0
    ensures TilePos(i, width) == TilePos(j, width) ==> i == j
  {
    assert i == FloorDiv(i, width) * width + FloorMod(i, width);
    assert j == FloorDiv(j, width) * width + FloorMod(j, width);
  }

  /**
   * The tile position of local index `i` is the window position of its
   * window index, shifted up by the rows of the bands before it.
   */
  lemma {:induction false} TileToWindow(width: int, height: int, threads: int, thread: int, i: int)
    requires width > 0 && threads > 0 && i >= 0
    ensures var lines := CeilDiv(height, threads);
      var index := thread * (lines * width) + i;
      TilePos(index, width) == (TilePos(i, width).0, thread * lines + TilePos(i, width).1)
  {
    var lines := CeilDiv(height, threads);
    var index := thread * (lines * width) + i;
    var q, r := FloorDiv(i, width), FloorMod(i, width);
    assert index == (thread * lines + q) * width + r;
    DivModUnique(index, width, thread * lines + q, r);
  }
}
