// The tile tracer of init.py: a camera splits the window into horizontal
// bands of rows, one per thread, traces each pixel of its band by stepping a
// ray through the voxel objects near the camera, and hands finished tiles
// back to the window, which keeps one image slot per sample and thread.

module TileTracer {
  import opened Lib
  import opened Voxels
  import opened Sprites
  import opened Objects

  /** The render settings the camera reads. */
  datatype Settings = Settings(
    width: int,
    height: int,
    threads: int,
    distMin: int,
    distMax: int,
    dof: real,
    skip: real,
    terminateHits: real,
    terminateDist: real)

  /** The ray record of this tracer: a colour that starts black, no absorption weight. */
  datatype TraceRay = TraceRay(color: Rgb, energy: real, pos: Vec3, vel: Vec3, step: int, life: int, hits: real)

  /** A material function that leaves the ray's step counter and lifetime alone. */
  ghost predicate KeepsClock(f: (TraceRay, Material) -> TraceRay) {
    forall r, m :: f(r, m).step == r.step && f(r, m).life == r.life
  }

  /** The material functions this model admits (see the README). */
  type Shade = f: (TraceRay, Material) -> TraceRay | KeepsClock(f) witness (r: TraceRay, m: Material) => r

  /**
   * The random draws one pixel consumes: the skip test, the two lens
   * offsets, and per step the two early-termination tests.
   */
  datatype Draws = Draws(skip: real, lensX: real, lensY: real, hit: int -> real, dist: int -> real)

  // ---------------------------------------------------------------------
  // Row bands

  /** The rows per thread: ceil(height / threads). */
  function Lines(height: int, threads: int): (n: int)
    requires threads > 0
    ensures height > 0 ==> n > 0
    ensures n > 0 ==> height > 0
    ensures (n - 1) * threads < height <= n * threads
  {
    CeilDiv(height, threads)
  }

  /** The window row that row `y` of the tile of `thread` traces. */
  function TileRow(thread: int, y: int, lines: int): int {
    y + lines * thread
  }

  /** Every window row is traced by exactly one thread, at one row of its tile. */
  lemma {:induction false} RowOwner(height: int, threads: int, row: int)
    requires threads > 0 && 0 <= row < height
    ensures var lines := Lines(height, threads);
      var t := row / lines;
      && 0 <= t < threads && 0 <= row - lines * t < lines
      && TileRow(t, row - lines * t, lines) == row
      && forall t', y' | 0 <= t' < threads && 0 <= y' < lines && TileRow(t', y', lines) == row :: t' == t && y' == row - lines * t
  {
    var lines := Lines(height, threads);
    var t := row / lines;
    assert 0 <= t;
    MulMonotone(threads, t, lines);
    forall t', y' | 0 <= t' < threads && 0 <= y' < lines && TileRow(t', y', lines) == row
      ensures t' == t && y' == row - lines * t
    {
      DivModUnique(row, lines, t', y');
    }
  }

  /** The rows traced past the bottom of the window: fewer than one per thread. */
  lemma RowOverrun(height: int, threads: int)
    requires threads > 0 && height >= 0
    ensures 0 <= Lines(height, threads) * threads - height < threads
  {
  }

  // ---------------------------------------------------------------------
  // Neighbour reflection

  /**
   * The neighbour checked on one axis: -1 when `v (ior - 0.5) 2` is
   * negative, +1 otherwise.
   */
  function NeighbourOffset(v: real, ior: real): (d: int)
    ensures d == -1 || d == 1
    ensures d == -1 <==> (v > 0.0 && ior < 0.5) || (v < 0.0 && ior > 0.5)
  {
    SignOfProduct(v, (ior - 0.5) * 2.0);
    if v * ((ior - 0.5) * 2.0) < 0.0 then -1 else 1
  }

  lemma SignOfProduct(a: real, b: real)
    ensures a * b < 0.0 <==> (a > 0.0 && b < 0.0) || (a < 0.0 && b > 0.0)
  {
    if a > 0.0 && b < 0.0 { MulPos(a, -b); }
    if a < 0.0 && b > 0.0 { MulPos(-a, b); }
    if a >= 0.0 && b >= 0.0 { MulNonneg(a, b); }
    if a <= 0.0 && b <= 0.0 { MulNonneg(-a, -b); }
  }

  /** The free `mix(a, b, bias)` on numbers. */
  function MixR(a: real, b: real, bias: real): real {
    a * (1.0 - bias) + b * bias
  }

  /**
   * One velocity component after the neighbour test: kept when the
   * neighbour holds a material of the same IOR, else mixed with its
   * negation by the IOR.
   */
  function ReflectAxis(v: real, neighbour: Option<Material>, ior: real): (r: real)
    ensures neighbour.Some? && neighbour.value.ior == ior ==> r == v
    ensures !(neighbour.Some? && neighbour.value.ior == ior) ==> r == v * (1.0 - 2.0 * ior)
    ensures !(neighbour.Some? && neighbour.value.ior == ior) && ior == 1.0 ==> r == -v
    ensures !(neighbour.Some? && neighbour.value.ior == ior) && ior == 0.5 ==> r == 0.0
    ensures 0.0 <= ior <= 1.0 ==> AbsR(r) <= AbsR(v)
  {
    ReflectShrinks(v, ior);
    if !(neighbour.Some? && neighbour.value.ior == ior) then MixR(v, -v, ior) else v
  }

  lemma {:induction false} ReflectShrinks(v: real, ior: real)
    ensures MixR(v, -v, ior) == v * (1.0 - 2.0 * ior)
    ensures 0.0 <= ior <= 1.0 ==> AbsR(v * (1.0 - 2.0 * ior)) <= AbsR(v)
  {
    var k := 1.0 - 2.0 * ior;
    if 0.0 <= ior <= 1.0 {
      assert -1.0 <= k <= 1.0;
      if v >= 0.0 {
        MulNonneg(v, 1.0 - k);
        MulNonneg(v, 1.0 + k);
      } else {
        MulNonneg(-v, 1.0 - k);
        MulNonneg(-v, 1.0 + k);
      }
    }
  }

  /** The unit offsets of the three neighbours checked for a velocity. */
  function NeighbourOffsets(vel: Vec3, ior: real): (Vec3, Vec3, Vec3) {
    (Vec3(NeighbourOffset(vel.x, ior) as real, 0.0, 0.0),
     Vec3(0.0, NeighbourOffset(vel.y, ior) as real, 0.0),
     Vec3(0.0, 0.0, NeighbourOffset(vel.z, ior) as real))
  }

  // ---------------------------------------------------------------------
  // The first hit of a step

  /**
   * What one object yields at a ray position: nothing when the point misses
   * its box, else the voxel of its facing sprite there (raising when it has
   * no sprite or the animation frame is bad).
   */
  ghost function Probe(o: Object, pos: Vec3, ticks: int): (r: Outcome<Option<(Sprite, Material)>>)
    requires o.Valid()
    reads *
    ensures !o.Intersects(pos, pos) ==> r == Ok(None)
    ensures o.Intersects(pos, pos) && o.GetSprite().None? ==> r == Raise(NoneAttribute)
    ensures r.Ok? && r.value.Some? ==>
      && o.Intersects(pos, pos)
      && o.GetSprite() == Some(r.value.value.0)
      && r.value.value.0.GetVoxel(None, o.PosRel(pos), ticks) == Ok(Some(r.value.value.1))
  {
    if !o.Intersects(pos, pos) then Ok(None)
    else
      match o.GetSprite()
      case None => Raise(NoneAttribute)
      case Some(s) =>
        match s.GetVoxel(None, o.PosRel(pos), ticks)
        case Raise(e) => Raise(e)
        case Ok(m) => if m.Some? then Ok(Some((s, m.value))) else Ok(None)
  }

  /** The first object from index `i` on that yields a material, with its index. */
  ghost function FirstProbe(objects: seq<Object>, i: nat, pos: Vec3, ticks: int): (r: Outcome<Option<(nat, Sprite, Material)>>)
    requires forall o | o in objects :: o.Valid()
    reads *
    ensures r.Ok? && r.value.Some? ==>
      var (k, s, m) := r.value.value;
      && i <= k < |objects|
      && Probe(objects[k], pos, ticks) == Ok(Some((s, m)))
      && forall j | i <= j < k :: Probe(objects[j], pos, ticks) == Ok(None)
    ensures r == Ok(None) ==> forall j | i <= j < |objects| :: Probe(objects[j], pos, ticks) == Ok(None)
    decreases |objects| - i
  {
    if i >= |objects| then Ok(None)
    else
      match Probe(objects[i], pos, ticks)
      case Raise(e) => Raise(e)
      case Ok(Some(hit)) => Ok(Some((i, hit.0, hit.1)))
      case Ok(None) => FirstProbe(objects, i + 1, pos, ticks)
  }

  /** The object loop of one step, which breaks at the first material found. */
  method FirstHit(objects: seq<Object>, pos: Vec3, ticks: int) returns (r: Outcome<Option<(nat, Sprite, Material)>>)
    requires forall o | o in objects :: o.Valid()
    ensures r == FirstProbe(objects, 0, pos, ticks)
  {
    var i := 0;
    while i < |objects|
      invariant 0 <= i <= |objects|
      invariant FirstProbe(objects, 0, pos, ticks) == FirstProbe(objects, i, pos, ticks)
    {
      var obj := objects[i];
      if obj.Intersects(pos, pos) {
        var spr := obj.GetSprite();
        if spr.None? {
          return Raise(NoneAttribute);
        }
        var mat := spr.value.GetVoxel(None, obj.PosRel(pos), ticks);
        if mat.Raise? {
          return Raise(mat.error);
        }
        if mat.value.Some? {
          return Ok(Some((i, spr.value, mat.value.value)));
        }
      }
      i := i + 1;
    }
    return Ok(None);
  }

  /**
   * The three neighbour lookups made for a hit in sprite `s` of object `o`:
   * on each axis the voxel against the ray when the IOR is above 0.5, along
   * it otherwise; the first lookup that raises decides.
   */
  function Neighbours(o: Object, s: Sprite, ray: TraceRay, ior: real, ticks: int): (r: Outcome<(Option<Material>, Option<Material>, Option<Material>)>)
    reads o, s, s.frames
  {
    var (dx, dy, dz) := NeighbourOffsets(ray.vel, ior);
    var rel := o.PosRel(ray.pos);
    var mx := s.GetVoxel(None, rel.Add(dx), ticks);
    var my := s.GetVoxel(None, rel.Add(dy), ticks);
    var mz := s.GetVoxel(None, rel.Add(dz), ticks);
    if mx.Raise? then Raise(mx.error)
    else if my.Raise? then Raise(my.error)
    else if mz.Raise? then Raise(mz.error)
    else Ok((mx.value, my.value, mz.value))
  }

  /** The ray after the material function ran: its velocity normalised. */
  function Finish(t: TraceRay): (f: TraceRay)
    ensures f.vel.IsZero() || MaxAbs3(f.vel) == 1.0
    ensures f.step == t.step && f.life == t.life
  {
    NormalizedUnit(t.vel);
    t.(vel := Normalized(t.vel))
  }

  /**
   * The material part of one step as a value: the first hit's material
   * function on the ray, reflected first by the neighbours when the IOR is
   * non-zero, and the velocity normalised; a lookup that raises decides.
   */
  ghost function ShadeStep(objects: seq<Object>, ray: TraceRay, shade: Shade, ticks: int): (r: Outcome<TraceRay>)
    requires forall o | o in objects :: o.Valid()
    reads *
    ensures r.Ok? ==> r.value.step == ray.step && r.value.life == ray.life
  {
    match FirstProbe(objects, 0, ray.pos, ticks)
    case Raise(e) => Raise(e)
    case Ok(None) => Ok(ray)
    case Ok(Some(hit)) =>
      var (k, s, m) := hit;
      if m.ior == 0.0 then Ok(Finish(shade(ray, m)))
      else
        match Neighbours(objects[k], s, ray, m.ior, ticks)
        case Raise(e) => Raise(e)
        case Ok(n) =>
          Ok(Finish(shade(ray.(vel := Vec3(ReflectAxis(ray.vel.x, n.0, m.ior), ReflectAxis(ray.vel.y, n.1, m.ior),
                                           ReflectAxis(ray.vel.z, n.2, m.ior))), m)))
  }

  /**
   * The material part of one step: reflect by the neighbours when the IOR is
   * non-zero, run the material function, normalise the velocity.
   */
  method Shaded(objects: seq<Object>, ray: TraceRay, shade: Shade, ticks: int) returns (r: Outcome<TraceRay>)
    requires forall o | o in objects :: o.Valid()
    ensures r == ShadeStep(objects, ray, shade, ticks)
    ensures r.Ok? ==> r.value.step == ray.step && r.value.life == ray.life
    ensures var h := FirstProbe(objects, 0, ray.pos, ticks);
      && (h.Raise? ==> r == Raise(h.error))
      && (h == Ok(None) ==> r == Ok(ray))
    ensures var h := FirstProbe(objects, 0, ray.pos, ticks);
      h.Ok? && h.value.Some? && h.value.value.2.ior == 0.0 ==>
        r == Ok(Finish(shade(ray, h.value.value.2)))
    ensures var h := FirstProbe(objects, 0, ray.pos, ticks);
      h.Ok? && h.value.Some? && h.value.value.2.ior != 0.0 ==>
        var (k, s, m) := h.value.value;
        var n := Neighbours(objects[k], s, ray, m.ior, ticks);
        && (n.Raise? ==> r == Raise(n.error))
        && (n.Ok? ==> r == Ok(Finish(shade(ray.(vel := Vec3(
              ReflectAxis(ray.vel.x, n.value.0, m.ior),
              ReflectAxis(ray.vel.y, n.value.1, m.ior),
              ReflectAxis(ray.vel.z, n.value.2, m.ior))), m))))
  {
    var hit := FirstHit(objects, ray.pos, ticks);
    if hit.Raise? {
      return Raise(hit.error);
    }
    if hit.value.None? {
      return Ok(ray);
    }
    var (k, spr, mat) := hit.value.value;
    var vel := ray.vel;
    if mat.ior != 0.0 {
      var n := Neighbours(objects[k], spr, ray, mat.ior, ticks);
      if n.Raise? {
        return Raise(n.error);
      }
      vel := Vec3(ReflectAxis(vel.x, n.value.0, mat.ior), ReflectAxis(vel.y, n.value.1, mat.ior),
                  ReflectAxis(vel.z, n.value.2, mat.ior));
    }
    var shaded := shade(ray.(vel := vel), mat);
    return Ok(shaded.(vel := Normalized(shaded.vel)));
  }

  // ---------------------------------------------------------------------
  // The step loop

  /** The hit-count termination test: `terminate_hits / hits` below the draw, once something was hit. */
  predicate HitStop(cfg: Settings, s: TraceRay, draws: Draws) {
    s.hits != 0.0 && cfg.terminateHits / s.hits < draws.hit(s.step)
  }

  /** The distance termination test: the part of the lifetime used exceeds `1 - terminate_dist` times the draw. */
  predicate DistStop(cfg: Settings, s: TraceRay, draws: Draws)
    requires s.life != 0
  {
    s.step as real / s.life as real > 1.0 - cfg.terminateDist * draws.dist(s.step)
  }

  /** One step along the velocity. */
  function Advance(s: TraceRay): (n: TraceRay)
    ensures n.step == s.step + 1 && n.life == s.life && n.pos == s.pos.Add(s.vel)
  {
    s.(step := s.step + 1, pos := s.pos.Add(s.vel))
  }

  /**
   * The step loop as a value: while the step is below the lifetime, shade
   * the ray, stop on a termination draw (raising when the lifetime is zero
   * at the distance test), else advance one step along the velocity.
   */
  ghost function Stepped(cfg: Settings, objects: seq<Object>, ray: TraceRay, shade: Shade, draws: Draws, ticks: int): Outcome<TraceRay>
    requires forall o | o in objects :: o.Valid()
    reads *
    decreases ray.life - ray.step
  {
    if ray.step >= ray.life then Ok(ray)
    else
      match ShadeStep(objects, ray, shade, ticks)
      case Raise(e) => Raise(e)
      case Ok(s) =>
        if HitStop(cfg, s, draws) then Ok(s)
        else if s.life == 0 then Raise(ZeroDivision)
        else if DistStop(cfg, s, draws) then Ok(s)
        else Stepped(cfg, objects, Advance(s), shade, draws, ticks)
  }

  /**
   * With material functions that keep the clock, the stepped ray keeps its
   * lifetime and ends with its step between the start and the lifetime; a
   * ray already out of life is returned unchanged.
   */
  lemma {:induction false} SteppedClock(cfg: Settings, objects: seq<Object>, ray: TraceRay, shade: Shade, draws: Draws, ticks: int)
    requires forall o | o in objects :: o.Valid()
    ensures var r := Stepped(cfg, objects, ray, shade, draws, ticks);
      && (r.Ok? ==> r.value.life == ray.life)
      && (r.Ok? && ray.step < ray.life ==> ray.step <= r.value.step <= ray.life)
      && (ray.step >= ray.life ==> r == Ok(ray))
    decreases ray.life - ray.step
  {
    if ray.step < ray.life {
      SteppedOnce(cfg, objects, ray, shade, draws, ticks);
      var h := ShadeStep(objects, ray, shade, ticks);
      if h.Ok? {
        var s := h.value;
        SteppedClock(cfg, objects, Advance(s), shade, draws, ticks);
      }
    }
  }

  /** One unfolding of the step loop, branch by branch. */
  lemma SteppedOnce(cfg: Settings, objects: seq<Object>, ray: TraceRay, shade: Shade, draws: Draws, ticks: int)
    requires forall o | o in objects :: o.Valid()
    requires ray.step < ray.life
    ensures var h := ShadeStep(objects, ray, shade, ticks);
      h.Raise? ==> Stepped(cfg, objects, ray, shade, draws, ticks) == Raise(h.error)
    ensures var h := ShadeStep(objects, ray, shade, ticks);
      h.Ok? && HitStop(cfg, h.value, draws) ==> Stepped(cfg, objects, ray, shade, draws, ticks) == h
    ensures var h := ShadeStep(objects, ray, shade, ticks);
      h.Ok? && !HitStop(cfg, h.value, draws) && h.value.life == 0 ==>
        Stepped(cfg, objects, ray, shade, draws, ticks) == Raise(ZeroDivision)
    ensures var h := ShadeStep(objects, ray, shade, ticks);
      h.Ok? && !HitStop(cfg, h.value, draws) && h.value.life != 0 && DistStop(cfg, h.value, draws) ==>
        Stepped(cfg, objects, ray, shade, draws, ticks) == h
    ensures var h := ShadeStep(objects, ray, shade, ticks);
      h.Ok? && !HitStop(cfg, h.value, draws) && h.value.life != 0 && !DistStop(cfg, h.value, draws) ==>
        Stepped(cfg, objects, ray, shade, draws, ticks) == Stepped(cfg, objects, Advance(h.value), shade, draws, ticks)
  {
  }

  /**
   * Steps the ray until its lifetime runs out or a termination draw stops
   * it. Each step runs at most one material function.
   */
  method Steps(cfg: Settings, objects: seq<Object>, ray0: TraceRay, shade: Shade, draws: Draws, ticks: int)
    returns (r: Outcome<TraceRay>, ghost iterations: nat)
    requires forall o | o in objects :: o.Valid()
    ensures r == Stepped(cfg, objects, ray0, shade, draws, ticks)
    ensures r.Ok? ==> r.value.life == ray0.life
    ensures r.Ok? && ray0.step < ray0.life ==> ray0.step <= r.value.step <= ray0.life
    ensures r.Ok? && ray0.step >= ray0.life ==> r.value == ray0
    ensures iterations <= MaxI(0, ray0.life - ray0.step)
  {
    SteppedClock(cfg, objects, ray0, shade, draws, ticks);
    ghost var goal := Stepped(cfg, objects, ray0, shade, draws, ticks);
    var ray := ray0;
    iterations := 0;
    while ray.step < ray.life
      invariant ray.life == ray0.life
      invariant ray.step >= ray0.step
      invariant iterations == ray.step - ray0.step
      invariant Stepped(cfg, objects, ray, shade, draws, ticks) == goal
      invariant goal == Stepped(cfg, objects, ray0, shade, draws, ticks)
      decreases ray.life - ray.step
    {
      iterations := iterations + 1;
      var shaded := Shaded(objects, ray, shade, ticks);
      SteppedOnce(cfg, objects, ray, shade, draws, ticks);
      if shaded.Raise? {
        return Raise(shaded.error), iterations;
      }
      var s := shaded.value;
      if HitStop(cfg, s, draws) {
        return Ok(s), iterations;
      } else if s.life == 0 {
        return Raise(ZeroDivision), iterations;
      } else if DistStop(cfg, s, draws) {
        return Ok(s), iterations;
      }
      ray := Advance(s);
    }
    return Ok(ray), iterations;
  }

  // ---------------------------------------------------------------------
  // The camera

  /** A camera: a position and rotation, the objects near it, and its lens. */
  class Camera {
    const cfg: Settings
    const lines: int
    const proportions: real
    const lens: real
    var pos: Vec3
    var rot: Vec3
    var objects: seq<Object>

    /** The settings the camera was built with: a positive thread count and its band height. */
    ghost predicate Ready() {
      cfg.threads > 0 && lines == Lines(cfg.height, cfg.threads)
    }

    /** The lens factor `fov * pi / 8` is passed in, since pi is a float constant. */
    constructor (cfg: Settings, lens: real)
      requires cfg.threads > 0 && MaxI(cfg.width, cfg.height) != 0
      ensures this.cfg == cfg && this.lens == lens && lines == Lines(cfg.height, cfg.threads)
      ensures proportions * MaxI(cfg.width, cfg.height) as real == (cfg.width + cfg.height) as real / 2.0
      ensures pos == Zero3 && rot == Zero3 && objects == []
      ensures Ready()
    {
      this.cfg := cfg;
      this.lens := lens;
      lines := Lines(cfg.height, cfg.threads);
      var m := MaxI(cfg.width, cfg.height) as real;
      proportions := ((cfg.width + cfg.height) as real / 2.0) / m;
      pos := Zero3;
      rot := Zero3;
      objects := [];
    }

    /**
     * The ray a pixel starts with: the screen direction scaled by the
     * proportions and the lens, offset by the depth-of-field draws, turned by
     * the camera rotation; it starts black at `dist_min` along its unit
     * velocity with `dist_max - dist_min` steps of life.
     */
    function InitialRay(dirX: real, dirY: real, dirOf: Vec3 -> Vec3, draws: Draws): (ray: TraceRay)
      requires proportions != 0.0
      reads this
      ensures ray.color == Rgb(0, 0, 0) && ray.energy == 0.0 && ray.hits == 0.0
      ensures ray.step == 0 && ray.life == cfg.distMax - cfg.distMin
      ensures ray.vel.IsZero() || MaxAbs3(ray.vel) == 1.0
      ensures ray.pos == pos.Add(ray.vel.Scale(cfg.distMin as real))
    {
      var lensX := (dirX / proportions) * lens + Rand(cfg.dof, draws.lensX);
      var lensY := (dirY * proportions) * lens + Rand(cfg.dof, draws.lensY);
      var rayRot := rot.Rotate(Vec3(0.0, -lensY, lensX));
      var rayDir := dirOf(rayRot);
      NormalizedUnit(rayDir);
      TraceRay(Rgb(0, 0, 0), 0.0, pos.Add(Normalized(rayDir).Scale(cfg.distMin as real)), Normalized(rayDir), 0,
               cfg.distMax - cfg.distMin, 0.0)
    }

    /**
     * Traces one pixel from its screen direction. `dirOf` is `vec3.dir` of
     * the ray rotation, `bg` the background function when one is set; the
     * colour returned is the ray's colour after the background ran once on
     * the ray the step loop left behind (`last`).
     */
    method Trace(dirX: real, dirY: real, dirOf: Vec3 -> Vec3, shade: Shade, bg: Option<TraceRay -> TraceRay>,
                 draws: Draws, ticks: int)
      returns (r: Outcome<Rgb>, ghost last: TraceRay)
      requires forall o | o in objects :: o.Valid()
      ensures proportions == 0.0 ==> r == Raise(ZeroDivision)
      ensures proportions != 0.0 ==>
        var s := Stepped(cfg, objects, InitialRay(dirX, dirY, dirOf, draws), shade, draws, ticks);
        && (s.Raise? ==> r == Raise(s.error))
        && (s.Ok? ==> last == s.value && r.Ok?)
      ensures r.Ok? ==> r.value == (if bg.Some? then bg.value(last) else last).color
      ensures r.Ok? ==> last.life == cfg.distMax - cfg.distMin
      ensures r.Ok? ==> 0 <= last.step <= MaxI(0, cfg.distMax - cfg.distMin)
    {
      if proportions == 0.0 {
        return Raise(ZeroDivision), TraceRay(Rgb(0, 0, 0), 0.0, pos, Zero3, 0, 0, 0.0);
      }
      var ray := InitialRay(dirX, dirY, dirOf, draws);
      var res, n := Steps(cfg, objects, ray, shade, draws, ticks);
      if res.Raise? {
        return Raise(res.error), ray;
      }
      var stepped := res.value;
      if bg.Some? {
        var done := bg.value(stepped);
        return Ok(done.color), stepped;
      }
      return Ok(stepped.color), stepped;
    }

    /**
     * Traces the band of rows of `thread` into its tile: every tile pixel
     * whose skip draw exceeds the skip setting is traced and painted.
     */
    method Tile(image: map<(int, int), Rgb>, thread: int, dirOf: Vec3 -> Vec3, shade: Shade,
                bg: Option<TraceRay -> TraceRay>, draws: (int, int) -> Draws, ticks: int)
      returns (r: Outcome<map<(int, int), Rgb>>)
      requires Ready()
      requires forall o | o in objects :: o.Valid()
      ensures r.Ok? ==> r.value.Keys == image.Keys + Painted(cfg.width, lines, cfg.skip, draws)
      ensures r.Ok? ==> forall p | p in image && p !in Painted(cfg.width, lines, cfg.skip, draws) ::
        r.value[p] == image[p]
    {
      var tile := image;
      var x := 0;
      while x < cfg.width
        invariant 0 <= x <= MaxI(0, cfg.width)
        invariant tile.Keys == image.Keys + Painted(x, lines, cfg.skip, draws)
        invariant forall p | p in image && p !in Painted(x, lines, cfg.skip, draws) :: tile[p] == image[p]
      {
        var column := Column(tile, x, thread, dirOf, shade, bg, draws, ticks);
        if column.Raise? {
          return Raise(column.error);
        }
        tile := column.value;
        PaintedStep(x, lines, cfg.skip, draws);
        x := x + 1;
      }
      return Ok(tile);
    }

    /** Column `x` of the tile, row by row. */
    method Column(image: map<(int, int), Rgb>, x: int, thread: int, dirOf: Vec3 -> Vec3, shade: Shade,
                  bg: Option<TraceRay -> TraceRay>, draws: (int, int) -> Draws, ticks: int)
      returns (r: Outcome<map<(int, int), Rgb>>)
      requires Ready() && 0 <= x < cfg.width
      requires forall o | o in objects :: o.Valid()
      ensures r.Ok? ==> r.value.Keys == image.Keys + PaintedColumn(x, lines, cfg.skip, draws)
      ensures r.Ok? ==> forall p | p in image && p !in PaintedColumn(x, lines, cfg.skip, draws) ::
        r.value[p] == image[p]
    {
      var tile := image;
      var y := 0;
      while y < lines
        invariant 0 <= y <= MaxI(0, lines)
        invariant tile.Keys == image.Keys + PaintedColumn(x, y, cfg.skip, draws)
        invariant forall p | p in image && p !in PaintedColumn(x, y, cfg.skip, draws) :: tile[p] == image[p]
      {
        if cfg.skip < draws(x, y).skip {
          var lineY := TileRow(thread, y, lines);
          var col: Outcome<Rgb>;
          ghost var last: TraceRay;
          col, last := Trace(ScreenDir(x, cfg.width), ScreenDir(lineY, cfg.height), dirOf, shade, bg,
                             draws(x, y), ticks);
          if col.Raise? {
            return Raise(col.error);
          }
          tile := tile[(x, y) := col.value];
        }
        PaintedColumnStep(x, y, cfg.skip, draws);
        y := y + 1;
      }
      return Ok(tile);
    }

    /**
     * Moves the camera and keeps, in registry order, the objects with a
     * first sprite whose centre is within `dist_max` plus their largest
     * size of the new position.
     */
    method Move(reg: Registry, pos: Vec3, rot: Vec3)
      requires forall o | o in reg.objects :: o.Valid()
      modifies this
      ensures this.pos == pos && this.rot == rot
      ensures objects == Visible(reg.objects, pos, cfg.distMax)
    {
      this.pos := pos;
      this.rot := rot;
      objects := [];
      var i := 0;
      while i < |reg.objects|
        invariant 0 <= i <= |reg.objects|
        invariant this.pos == pos && this.rot == rot
        invariant objects == Visible(reg.objects[..i], pos, cfg.distMax)
      {
        var obj := reg.objects[i];
        assert obj in reg.objects;
        assert reg.objects[..i + 1] == reg.objects[..i] + [obj];
        if obj.sprites[0].Some? && InReach(obj.pos, this.pos, cfg.distMax as real + obj.size.Max()) {
          objects := objects + [obj];
        }
        i := i + 1;
      }
      assert reg.objects[..|reg.objects|] == reg.objects;
    }
  }

  /** The tile pixels of the first `width` columns that the skip draws let through. */
  function Painted(width: int, lines: int, skip: real, draws: (int, int) -> Draws): set<(int, int)> {
    set x, y | 0 <= x < width && 0 <= y < lines && skip < draws(x, y).skip :: (x, y)
  }

  /** The painted pixels of column `x` above row `y`. */
  function PaintedColumn(x: int, y: int, skip: real, draws: (int, int) -> Draws): set<(int, int)> {
    set y' | 0 <= y' < y && skip < draws(x, y').skip :: (x, y')
  }

  lemma PaintedColumnStep(x: int, y: int, skip: real, draws: (int, int) -> Draws)
    requires y >= 0
    ensures PaintedColumn(x, y + 1, skip, draws) ==
      PaintedColumn(x, y, skip, draws) + (if skip < draws(x, y).skip then {(x, y)} else {})
  {
  }

  lemma PaintedStep(x: int, lines: int, skip: real, draws: (int, int) -> Draws)
    requires x >= 0
    ensures Painted(x + 1, lines, skip, draws) == Painted(x, lines, skip, draws) + PaintedColumn(x, lines, skip, draws)
  {
  }

  /**
   * `math.dist(a, b) <= reach`, compared without the square root: the
   * Euclidean distance is at most a reach when the reach is non-negative and
   * the squared distance is at most its square.
   */
  predicate InReach(a: Vec3, b: Vec3, reach: real) {
    var d := a.Sub(b);
    reach >= 0.0 && d.x * d.x + d.y * d.y + d.z * d.z <= reach * reach
  }

  /** An object the camera keeps: it has a first sprite and its centre is in reach. */
  ghost predicate Kept(o: Object, pos: Vec3, distMax: int)
    reads o
  {
    |o.sprites| > 0 && o.sprites[0].Some? && InReach(o.pos, pos, distMax as real + o.size.Max())
  }

  /** The objects `Camera.move` keeps from `s`, in order. */
  ghost function Visible(s: seq<Object>, pos: Vec3, distMax: int): (v: seq<Object>)
    reads set o | o in s
    ensures forall o | o in v :: o in s && Kept(o, pos, distMax)
    ensures forall o | o in s && Kept(o, pos, distMax) :: o in v
  {
    if |s| == 0 then []
    else
      var o := s[|s| - 1];
      var rest := Visible(s[..|s| - 1], pos, distMax);
      if Kept(o, pos, distMax) then rest + [o] else rest
  }

  // ---------------------------------------------------------------------
  // Tile slots of the window

  /** An encoded tile image. */
  type Image = seq<bv8>

  /** A slot is waiting to be drawn when it holds a non-empty image. */
  predicate Pending(slot: Option<Image>) {
    slot.Some? && |slot.value| > 0
  }

  /** The image slots of the window: one per sample and thread. */
  class TileSlots {
    var tiles: seq<seq<Option<Image>>>

    /** A finished tile arrives: only slot [sample][thread] is overwritten. */
    method UpdateTile(image: Option<Image>, sample: int, thread: int) returns (r: Outcome<()>)
      modifies this
      ensures var s := PyIndex(sample, |old(tiles)|);
        r.Ok? <==> s.Some? && PyIndex(thread, |old(tiles)[s.value]|).Some?
      ensures r.Raise? ==> r.error == IndexOutOfRange && tiles == old(tiles)
      ensures r.Ok? ==>
        var s := PyIndex(sample, |old(tiles)|).value;
        var t := PyIndex(thread, |old(tiles)[s]|).value;
        tiles == old(tiles)[s := old(tiles)[s][t := image]]
    {
      match PyIndex(sample, |tiles|)
      case None =>
        return Raise(IndexOutOfRange);
      case Some(s) =>
        match PyIndex(thread, |tiles[s]|)
        case None =>
          return Raise(IndexOutOfRange);
        case Some(t) =>
          tiles := tiles[s := tiles[s][t := image]];
          return Ok(());
    }

    /**
     * The render pass: every pending slot, in sample then thread order, is
     * sent out as a job (image, sample, thread) and emptied; the others are
     * left as they are.
     */
    method Dispatch() returns (jobs: seq<(Image, int, int)>)
      modifies this
      ensures |tiles| == |old(tiles)|
      ensures forall s | 0 <= s < |tiles| :: tiles[s] == Cleared(old(tiles)[s])
      ensures jobs == Jobs(old(tiles), |old(tiles)|)
    {
      jobs := [];
      var s := 0;
      while s < |tiles|
        invariant 0 <= s <= |tiles| == |old(tiles)|
        invariant forall i | 0 <= i < |tiles| :: tiles[i] == if i < s then Cleared(old(tiles)[i]) else old(tiles)[i]
        invariant jobs == Jobs(old(tiles), s)
      {
        var row := DispatchRow(s);
        jobs := jobs + row;
        s := s + 1;
      }
    }

    /** The slots of one sample, in thread order. */
    method DispatchRow(s: int) returns (jobs: seq<(Image, int, int)>)
      requires 0 <= s < |tiles|
      modifies this
      ensures tiles == old(tiles)[s := Cleared(old(tiles)[s])]
      ensures jobs == RowJobs(old(tiles)[s], s, |old(tiles)[s]|)
    {
      jobs := [];
      var row := tiles[s];
      var t := 0;
      while t < |row|
        invariant 0 <= t <= |row|
        invariant |row| == |old(tiles)[s]|
        invariant forall u | 0 <= u < |row| ::
          row[u] == if u < t && Pending(old(tiles)[s][u]) then None else old(tiles)[s][u]
        invariant jobs == RowJobs(old(tiles)[s], s, t)
        invariant tiles == old(tiles)
      {
        if Pending(row[t]) {
          jobs := jobs + [(row[t].value, s, t)];
          row := row[t := None];
        }
        t := t + 1;
      }
      assert row == Cleared(old(tiles)[s]);
      tiles := tiles[s := row];
    }
  }

  /** Sample row `row` after the render pass: pending slots emptied, the rest kept. */
  function Cleared(row: seq<Option<Image>>): (c: seq<Option<Image>>)
    ensures |c| == |row|
    ensures forall t | 0 <= t < |row| :: c[t] == if Pending(row[t]) then None else row[t]
    ensures forall t | 0 <= t < |row| :: !Pending(c[t])
  {
    seq(|row|, t requires 0 <= t < |row| => if Pending(row[t]) then None else row[t])
  }

  /** The jobs of the first `t` slots of sample row `s`. */
  function RowJobs(row: seq<Option<Image>>, s: int, t: nat): (js: seq<(Image, int, int)>)
    requires t <= |row|
    ensures forall j | 0 <= j < |js| ::
      (js[j].1 == s && 0 <= js[j].2 < t && Pending(row[js[j].2]) && Some(js[j].0) == row[js[j].2])
    ensures forall u | 0 <= u < t && Pending(row[u]) :: (row[u].value, s, u) in js
  {
    if t == 0 then []
    else
      var rest := RowJobs(row, s, t - 1);
      if Pending(row[t - 1]) then rest + [(row[t - 1].value, s, t - 1)] else rest
  }

  /** The jobs of the first `s` sample rows, in order. */
  function Jobs(tiles: seq<seq<Option<Image>>>, s: nat): (js: seq<(Image, int, int)>)
    requires s <= |tiles|
    ensures forall j | 0 <= j < |js| ::
      (0 <= js[j].1 < s && 0 <= js[j].2 < |tiles[js[j].1]| &&
       Pending(tiles[js[j].1][js[j].2]) && Some(js[j].0) == tiles[js[j].1][js[j].2])
    ensures forall i, u | 0 <= i < s && 0 <= u < |tiles[i]| && Pending(tiles[i][u]) :: (tiles[i][u].value, i, u) in js
  {
    if s == 0 then []
    else Jobs(tiles, s - 1) + RowJobs(tiles[s - 1], s - 1, |tiles[s - 1]|)
  }
}
