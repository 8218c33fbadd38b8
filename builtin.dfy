// The default material and sky functions of builtin.py. Both work on the
// ray record of the per-pixel tracer in camera.py, updating its colour,
// absorption, energy, velocity and hit count in place.

module Builtin {
  import opened Lib
  import V = Voxels

  /** The mutable ray record handed to material functions. */
  class Ray {
    var col: Option<Rgb>
    var absorption: real
    var energy: real
    var pos: Vec3
    var vel: Vec3
    var step: int
    var life: int
    var hits: real

    /** A fresh ray: no colour yet, full absorption weight, no steps and no hits. */
    constructor (energy: real, pos: Vec3, vel: Vec3, life: int)
      ensures col.None? && absorption == 1.0 && this.energy == energy
      ensures this.pos == pos && this.vel == vel && step == 0 && this.life == life && hits == 0.0
    {
      col := None;
      absorption := 1.0;
      this.energy := energy;
      this.pos := pos;
      this.vel := vel;
      step := 0;
      this.life := life;
      hits := 0.0;
    }
  }

  // ---------------------------------------------------------------------
  // material

  /** The colour after a hit: the albedo on the first hit, else blended by the absorption weight. */
  function HitColour(col: Option<Rgb>, absorption: real, albedo: Rgb): (r: Option<Rgb>)
    ensures r.Some?
    ensures col.None? ==> r == Some(albedo)
    ensures col.Some? && absorption == 0.0 ==> r == col
    ensures col.Some? && absorption == 1.0 ==> r == Some(albedo)
    ensures col.Some? && 0.0 <= absorption <= 1.0 ==>
      Between(r.value.r, col.value.r, albedo.r) && Between(r.value.g, col.value.g, albedo.g) &&
      Between(r.value.b, col.value.b, albedo.b)
  {
    if col.None? then Some(albedo)
    else if absorption != 0.0 then Some(col.value.Mix(albedo, absorption))
    else col
  }

  /** The factor the absorption weight is multiplied by on a hit. */
  function AbsorptionFactor(density: real, metalicity: real, hits: real): (f: real)
    requires 1.0 + hits != 0.0
    ensures 0.0 <= density <= 1.0 && 0.0 <= metalicity <= 1.0 && hits >= 0.0 ==> 0.0 <= f <= 1.0
    ensures density == 0.0 ==> f == 1.0
  {
    AbsorptionBounds(density, metalicity, hits);
    (1.0 - density) + (metalicity / (1.0 + hits)) * density
  }

  lemma {:induction false} AbsorptionBounds(density: real, metalicity: real, hits: real)
    requires 1.0 + hits != 0.0
    ensures 0.0 <= density <= 1.0 && 0.0 <= metalicity <= 1.0 && hits >= 0.0 ==>
      0.0 <= (1.0 - density) + (metalicity / (1.0 + hits)) * density <= 1.0
  {
    if 0.0 <= density <= 1.0 && 0.0 <= metalicity <= 1.0 && hits >= 0.0 {
      var t := metalicity / (1.0 + hits);
      DivPositive(metalicity, 1.0 + hits);
      assert 0.0 <= t <= 1.0;
      MulNonneg(t, density);
      MulNonneg(1.0 - t, density);
      assert (1.0 - t) * density == density - t * density;
    }
  }

  /** The energy after a hit: divided by 2 - metalicity, plus the emission, capped at 1. */
  function HitEnergy(energy: real, metalicity: real, emission: real): (e: real)
    requires metalicity != 2.0
    ensures e <= 1.0
    ensures energy >= 0.0 && metalicity < 2.0 && emission >= 0.0 ==> e >= 0.0
    ensures metalicity == 1.0 ==> e == MinR(1.0, energy + emission)
  {
    HitEnergyNonneg(energy, metalicity);
    MinR(1.0, energy / (2.0 - metalicity) + emission)
  }

  lemma HitEnergyNonneg(energy: real, metalicity: real)
    requires metalicity != 2.0
    ensures energy >= 0.0 && metalicity < 2.0 ==> energy / (2.0 - metalicity) >= 0.0
  {
    if metalicity < 2.0 {
      DivPositive(energy, 2.0 - metalicity);
    }
  }

  /**
   * One axis of the mirrored copy: a component heading into a reflecting
   * face (+ when `pos`, - when `neg`) is negated, every other one is kept.
   */
  function BounceAxis(a: real, pos: bool, neg: bool): (r: real)
    ensures AbsR(r) == AbsR(a)
    ensures (r == -a && a != 0.0) <==> ((a > 0.0 && pos) || (a < 0.0 && neg))
  {
    if a > 0.0 && pos then a * -1.0
    else if a < 0.0 && neg then a * -1.0
    else a
  }

  /** The mirrored copy of a velocity against the reflecting faces of a voxel. */
  function Bounced(v: Vec3, n: V.Normals): (r: Vec3)
    ensures AbsR(r.x) == AbsR(v.x) && AbsR(r.y) == AbsR(v.y) && AbsR(r.z) == AbsR(v.z)
    ensures (r.x == -v.x && v.x != 0.0) <==> ((v.x > 0.0 && n.px) || (v.x < 0.0 && n.nx))
    ensures (r.y == -v.y && v.y != 0.0) <==> ((v.y > 0.0 && n.py) || (v.y < 0.0 && n.ny))
    ensures (r.z == -v.z && v.z != 0.0) <==> ((v.z > 0.0 && n.pz) || (v.z < 0.0 && n.nz))
    ensures n == V.Normals(false, false, false, false, false, false) ==> r == v
  {
    Vec3(BounceAxis(v.x, n.px, n.nx), BounceAxis(v.y, n.py, n.ny), BounceAxis(v.z, n.pz, n.nz))
  }

  /** The roughness offset, one `rand(roughness)` per axis with the draws passed in. */
  function Jitter(roughness: real, draws: Vec3): (j: Vec3)
    ensures roughness == 0.0 ==> j.IsZero()
  {
    Vec3(Rand(roughness, draws.x), Rand(roughness, draws.y), Rand(roughness, draws.z))
  }

  /**
   * The velocity after a hit: jittered by roughness, blended toward its
   * mirrored copy by the IOR when the IOR is non-zero, then normalised.
   */
  function HitVelocity(vel: Vec3, mat: V.Material, draws: Vec3): (r: Vec3)
    ensures r.IsZero() || MaxAbs3(r) == 1.0
    ensures mat.ior == 0.0 ==> r == Normalized(vel.Add(Jitter(mat.roughness, draws)))
    ensures mat.ior == 1.0 ==>
      var v := vel.Add(Jitter(mat.roughness, draws));
      r == Normalized(Bounced(v, mat.normals))
  {
    var v := vel.Add(Jitter(mat.roughness, draws));
    var w := if mat.ior != 0.0 then v.Mix(Bounced(v, mat.normals), mat.ior) else v;
    NormalizedUnit(w);
    Normalized(w)
  }

  /**
   * The default material function. The three roughness draws are passed in.
   * Python raises ZeroDivisionError when the hit count is -1 or the
   * metalicity is 2; the colour update before the raise is kept.
   */
  method Material(ray: Ray, mat: V.Material, draws: Vec3) returns (r: Outcome<()>)
    modifies ray
    ensures ray.col == HitColour(old(ray.col), old(ray.absorption), mat.albedo)
    ensures r.Raise? <==> 1.0 + old(ray.hits) == 0.0 || mat.metalicity == 2.0
    ensures r.Raise? ==> r.error == ZeroDivision
    ensures r.Ok? ==>
      && ray.absorption == old(ray.absorption) * AbsorptionFactor(mat.density, mat.metalicity, old(ray.hits))
      && ray.energy == HitEnergy(old(ray.energy), mat.metalicity, mat.energy)
      && ray.vel == HitVelocity(old(ray.vel), mat, draws)
      && ray.hits == old(ray.hits) + mat.density
    ensures ray.pos == old(ray.pos) && ray.step == old(ray.step) && ray.life == old(ray.life)
  {
    // colour
    if ray.col.None? {
      ray.col := Some(mat.albedo);
    } else if ray.absorption != 0.0 {
      ray.col := Some(ray.col.value.Mix(mat.albedo, ray.absorption));
    }
    if 1.0 + ray.hits == 0.0 {
      return Raise(ZeroDivision);
    }
    var factor := (1.0 - mat.density) + (mat.metalicity / (1.0 + ray.hits)) * mat.density;
    assert ray.absorption == old(ray.absorption) && ray.hits == old(ray.hits);
    assert factor == AbsorptionFactor(mat.density, mat.metalicity, old(ray.hits));
    ray.absorption := ray.absorption * factor;
    ghost var absorbed := ray.absorption;
    assert absorbed == old(ray.absorption) * AbsorptionFactor(mat.density, mat.metalicity, old(ray.hits));

    // energy
    if 2.0 - mat.metalicity == 0.0 {
      return Raise(ZeroDivision);
    }
    ray.energy := ray.energy / (2.0 - mat.metalicity);
    ray.energy := MinR(1.0, ray.energy + mat.energy);
    ghost var energized := ray.energy;
    assert energized == HitEnergy(old(ray.energy), mat.metalicity, mat.energy);

    // roughness and reflection
    ray.vel := ray.vel.Add(Vec3(Rand(mat.roughness, draws.x), Rand(mat.roughness, draws.y), Rand(mat.roughness, draws.z)));
    ghost var jittered := ray.vel;
    assert jittered == old(ray.vel).Add(Jitter(mat.roughness, draws));
    if mat.ior != 0.0 {
      // the mirrored copy, each axis negated when it heads into a reflecting face
      var vel := Bounced(ray.vel, mat.normals);
      ray.vel := ray.vel.Mix(vel, mat.ior);
    }
    assert ray.vel == if mat.ior != 0.0 then jittered.Mix(Bounced(jittered, mat.normals), mat.ior) else jittered;
    ray.vel := Normalized(ray.vel);
    assert ray.vel == HitVelocity(old(ray.vel), mat, draws);

    // hits
    ray.hits := ray.hits + mat.density;
    assert ray.absorption == absorbed && ray.energy == energized;
    return Ok(());
  }

  // ---------------------------------------------------------------------
  // material_sky

  /** The sky colour for a vertical velocity: grey at or below the horizon, bluer upward. */
  function SkyColour(vy: real): (c: Rgb)
    ensures c.r == 127
    ensures vy <= 0.0 ==> c == Rgb(127, 127, 127)
    ensures vy <= 1.0 ==> 127 <= c.g <= 191 && 127 <= c.b <= 255
    ensures vy == 1.0 ==> c == Rgb(127, 191, 255)
  {
    var up := MaxR(0.0, vy);
    SkyChannel(up, 64.0);
    SkyChannel(up, 128.0);
    MakeRgb(127.0, 127.0 + up * 64.0, 127.0 + up * 128.0)
  }

  lemma {:induction false} SkyChannel(up: real, k: real)
    requires up >= 0.0 && k >= 0.0
    ensures 127 <= Trunc(127.0 + up * k)
    ensures up <= 1.0 ==> Trunc(127.0 + up * k) as real <= 127.0 + k
    ensures up == 0.0 ==> Trunc(127.0 + up * k) == 127
  {
    MulNonneg(up, k);
    if up <= 1.0 {
      MulNonneg(1.0 - up, k);
      assert (1.0 - up) * k == k - up * k;
    }
    if up == 0.0 {
      TruncOfInt(127);
    }
  }

  /** The energy after the sky: at least a quarter more, capped at 1. */
  function SkyEnergy(energy: real, vy: real): (e: real)
    ensures e <= 1.0
    ensures energy <= 0.75 ==> e >= energy + 0.25
    ensures e >= MinR(1.0, energy + 0.25)
  {
    var up := MaxR(0.0, vy);
    MulNonneg(up, 0.25);
    MinR(1.0, energy + (0.25 + up * 0.25))
  }

  /** The default background function: blends in the sky colour and adds its energy. */
  method MaterialSky(ray: Ray)
    modifies ray
    ensures ray.col == Some(if old(ray.col).Some? then old(ray.col).value.Mix(SkyColour(old(ray.vel).y), old(ray.absorption))
                             else SkyColour(old(ray.vel).y))
    ensures ray.energy == SkyEnergy(old(ray.energy), old(ray.vel).y)
    ensures ray.absorption == old(ray.absorption) && ray.vel == old(ray.vel) && ray.pos == old(ray.pos)
    ensures ray.step == old(ray.step) && ray.life == old(ray.life) && ray.hits == old(ray.hits)
  {
    var up := MaxR(0.0, ray.vel.y);
    var col := MakeRgb(127.0, 127.0 + up * 64.0, 127.0 + up * 128.0);
    ray.col := if ray.col.Some? then Some(ray.col.value.Mix(col, ray.absorption)) else Some(col);
    ray.energy := MinR(1.0, ray.energy + (0.25 + MaxR(0.0, ray.vel.y) * 0.25));
  }
}
