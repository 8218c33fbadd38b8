// Objects of data.py: a world-space box around a centre, up to four sprites
// for the four facing directions, a pitch-limited rotation and the global
// registry in which at most one object holds the camera.

module Objects {
  import opened Lib
  import opened Voxels
  import opened Sprites

  const Zero3 := Vec3(0.0, 0.0, 0.0)

  // ---------------------------------------------------------------------
  // Rotation with a pitch limit (shared by Object.rotate and Camera.rotate)

  /**
   * The pitch clamp applied after a rotation: with a non-zero limit, a pitch
   * above the limit but at most 180 is pulled down to the limit, and a pitch
   * above 180 but below 360 - limit is pulled up to it.
   */
  function PitchClamped(y: real, limit: real): real {
    if limit == 0.0 then y
    else
      var pitchMin := MaxR(180.0, 360.0 - limit);
      var pitchMax := MinR(180.0, limit);
      var y1 := if y > pitchMax && y <= 180.0 then pitchMax else y;
      if y1 < pitchMin && y1 > 180.0 then pitchMin else y1
  }

  /** The pitches a positive limit allows: [0, min(180, limit)] and [max(180, 360 - limit), 360). */
  predicate PitchAllowed(y: real, limit: real) {
    (0.0 <= y <= MinR(180.0, limit)) || (MaxR(180.0, 360.0 - limit) <= y < 360.0)
  }

  /** A clamped pitch in [0, 360) stays there, and with a positive limit it is an allowed pitch. */
  lemma PitchClampRange(y: real, limit: real)
    ensures 0.0 <= y < 360.0 && limit >= 0.0 ==> 0.0 <= PitchClamped(y, limit) < 360.0
    ensures 0.0 <= y < 360.0 && limit > 0.0 ==> PitchAllowed(PitchClamped(y, limit), limit)
  {
  }

  /** The clamp leaves an allowed pitch alone, so clamping twice is clamping once. */
  lemma PitchClampKeepsAllowed(y: real, limit: real)
    requires limit > 0.0
    ensures PitchAllowed(y, limit) ==> PitchClamped(y, limit) == y
    ensures 0.0 <= y < 360.0 ==> PitchClamped(PitchClamped(y, limit), limit) == PitchClamped(y, limit)
  {
    PitchClampRange(y, limit);
  }

  /** The rotation `rotate(delta, limit)` produces: nothing for a zero delta, else wrap and clamp. */
  function RotatedClamped(rot: Vec3, delta: Vec3, limit: real): (r: Vec3)
    ensures delta.IsZero() ==> r == rot
    ensures !delta.IsZero() ==> 0.0 <= r.x < 360.0 && 0.0 <= r.z < 360.0
    ensures !delta.IsZero() && limit >= 0.0 ==> 0.0 <= r.y < 360.0
    ensures !delta.IsZero() && limit > 0.0 ==> PitchAllowed(r.y, limit)
    ensures !delta.IsZero() && limit == 0.0 ==> r == rot.Rotate(delta)
  {
    if delta.IsZero() then rot
    else
      var w := rot.Rotate(delta);
      PitchClampRange(w.y, limit);
      w.(y := PitchClamped(w.y, limit))
  }

  // ---------------------------------------------------------------------
  // Facing

  /** `round(rot.y / 90) % 4`: the quarter turn the object faces. */
  function Facing(yaw: real): (k: int)
    ensures 0 <= k < 4
  {
    FloorMod(RoundHalfEven(yaw / 90.0), 4)
  }

  /** For a yaw in [0, 360), the chosen quarter is within 45 degrees of the yaw (wrapping at 360). */
  lemma {:induction false} FacingNearest(yaw: real)
    requires 0.0 <= yaw < 360.0
    ensures AbsR(yaw - 90.0 * Facing(yaw) as real) <= 45.0 || (Facing(yaw) == 0 && yaw >= 315.0)
  {
    var q := yaw / 90.0;
    var n := RoundHalfEven(q);
    assert yaw == 90.0 * q;
    assert AbsR(q - n as real) <= 0.5;
    assert AbsR(yaw - 90.0 * n as real) == 90.0 * AbsR(q - n as real);
    assert 0 <= n <= 4;
    if n == 4 {
      assert Facing(yaw) == 0;
    } else {
      assert Facing(yaw) == n;
    }
  }

  // ---------------------------------------------------------------------
  // The registry

  /** The global list `objects` of every live object. */
  class Registry {
    var objects: seq<Object>

    constructor ()
      ensures objects == []
    {
      objects := [];
    }
  }

  /** The first position of `o` in `s`, None when it is absent. */
  function IndexOf(s: seq<Object>, o: Object): (r: Option<nat>)
    ensures r.Some? <==> o in s
    ensures r.Some? ==> r.value < |s| && s[r.value] == o && o !in s[..r.value]
  {
    if |s| == 0 then None
    else if s[0] == o then Some(0)
    else
      match IndexOf(s[1..], o)
      case None => None
      case Some(k) =>
        assert s[..k + 1] == [s[0]] + s[1..][..k];
        Some(k + 1)
  }

  /** A world object: a box of half-extent `dist` around `pos`, and the sprites it shows. */
  class Object {
    var pos: Vec3
    var rot: Vec3
    var camPos: Option<Vec2>
    var size: Vec3
    var dist: Vec3
    var mins: Vec3
    var maxs: Vec3
    var sprites: seq<Option<Sprite>>

    /** Four sprite slots, and `dist` is half the size. */
    ghost predicate Valid()
      reads this
    {
      |sprites| == 4 && dist == size.Scale(0.5)
    }

    /** The corners bound the box of half-extent `dist` around the truncated centre. */
    ghost predicate Boxed()
      reads this
    {
      mins == pos.Int().Sub(dist) && maxs == pos.Int().Add(dist)
    }

    /** The point-sized box the object has while it shows no sprite. */
    ghost predicate Collapsed()
      reads this
    {
      size == Zero3 && dist == Zero3 && mins == Zero3 && maxs == Zero3
    }

    /**
     * A new object, registered at the end of `reg`. Moving by its own
     * position on creation doubles a non-zero starting position.
     */
    constructor (reg: Registry, pos: Option<Vec3>, rot: Option<Vec3>)
      modifies reg
      ensures var p := if pos.Some? then pos.value else Zero3;
        this.pos == p.Add(p)
      ensures this.rot == (if rot.Some? then rot.value else Zero3)
      ensures camPos.None? && sprites == [None, None, None, None]
      ensures size == Zero3 && dist == Zero3
      ensures Valid() && Boxed()
      ensures reg.objects == old(reg.objects) + [this]
    {
      this.pos := if pos.Some? then pos.value else Zero3;
      this.rot := if rot.Some? then rot.value else Zero3;
      camPos := None;
      size, dist, mins, maxs := Zero3, Zero3, Zero3, Zero3;
      sprites := [None, None, None, None];
      new;
      Move(this.pos);
      reg.objects := reg.objects + [this];
    }

    /** Removes the first registry entry for this object; ValueError when it has none. */
    method Remove(reg: Registry) returns (r: Outcome<()>)
      modifies reg
      ensures r.Ok? <==> this in old(reg.objects)
      ensures r.Raise? ==> r.error == NotInList && reg.objects == old(reg.objects)
      ensures r.Ok? ==>
        var i := IndexOf(old(reg.objects), this).value;
        reg.objects == old(reg.objects)[..i] + old(reg.objects)[i + 1..]
    {
      match IndexOf(reg.objects, this)
      case None =>
        return Raise(NotInList);
      case Some(i) =>
        reg.objects := reg.objects[..i] + reg.objects[i + 1..];
        return Ok(());
    }

    /** How far `p` lies outside the box: the largest per-axis excess over `dist`. */
    function Distance(p: Vec3): (r: real)
      reads this
      ensures r >= 0.0
      ensures r >= AbsR(pos.x - p.x) - dist.x && r >= AbsR(pos.y - p.y) - dist.y &&
        r >= AbsR(pos.z - p.z) - dist.z
      ensures r == 0.0 <==>
        AbsR(pos.x - p.x) <= dist.x && AbsR(pos.y - p.y) <= dist.y && AbsR(pos.z - p.z) <= dist.z
      ensures r > 0.0 ==>
        r == AbsR(pos.x - p.x) - dist.x || r == AbsR(pos.y - p.y) - dist.y ||
        r == AbsR(pos.z - p.z) - dist.z
    {
      var x := MaxR(0.0, AbsR(pos.x - p.x) - dist.x);
      var y := MaxR(0.0, AbsR(pos.y - p.y) - dist.y);
      var z := MaxR(0.0, AbsR(pos.z - p.z) - dist.z);
      MaxR(x, MaxR(y, z))
    }

    /** Whether the box [pmin, pmax] overlaps the object's box (a point when both are equal). */
    function Intersects(pmin: Vec3, pmax: Vec3): bool
      reads this
    {
      pmin.x < maxs.x + 1.0 && pmax.x > mins.x &&
      pmin.y < maxs.y + 1.0 && pmax.y > mins.y &&
      pmin.z < maxs.z + 1.0 && pmax.z > mins.z
    }

    /** The position relative to the far corner: adding `p` back gives `maxs`. */
    function PosRel(p: Vec3): (r: Vec3)
      reads this
      ensures r.Add(p) == maxs
      ensures p == maxs ==> r == Zero3
    {
      maxs.Sub(p)
    }

    /** Moves by `delta` when it is non-zero and recomputes the corners. */
    method Move(delta: Vec3)
      modifies this
      ensures delta.IsZero() ==> pos == old(pos) && mins == old(mins) && maxs == old(maxs)
      ensures !delta.IsZero() ==> pos == old(pos).Add(delta) && Boxed()
      ensures rot == old(rot) && camPos == old(camPos) && size == old(size) && dist == old(dist)
      ensures sprites == old(sprites)
    {
      if delta.x != 0.0 || delta.y != 0.0 || delta.z != 0.0 {
        pos := pos.Add(delta);
        mins := pos.Int().Sub(dist);
        maxs := pos.Int().Add(dist);
      }
    }

    /** Rotates by `delta` when it is non-zero, wrapping into [0, 360) and clamping the pitch. */
    method Rotate(delta: Vec3, limitPitch: real)
      modifies this
      ensures rot == RotatedClamped(old(rot), delta, limitPitch)
      ensures pos == old(pos) && camPos == old(camPos) && size == old(size) && dist == old(dist)
      ensures mins == old(mins) && maxs == old(maxs) && sprites == old(sprites)
    {
      if delta.x != 0.0 || delta.y != 0.0 || delta.z != 0.0 {
        rot := rot.Rotate(delta);
        if limitPitch != 0.0 {
          var pitchMin := MaxR(180.0, 360.0 - limitPitch);
          var pitchMax := MinR(180.0, limitPitch);
          if rot.y > pitchMax && rot.y <= 180.0 {
            rot := rot.(y := pitchMax);
          }
          if rot.y < pitchMin && rot.y > 180.0 {
            rot := rot.(y := pitchMin);
          }
        }
      }
    }

    /**
     * Stores the given sprites in the first slots and resizes the box to the
     * first slot's sprite, or to a point when that slot is empty. More than
     * four sprites raise IndexError once the four slots are written.
     */
    method SetSprite(sprs: seq<Option<Sprite>>) returns (r: Outcome<()>)
      requires Valid()
      modifies this
      ensures Valid()
      ensures r.Raise? <==> |sprs| > 4
      ensures r.Raise? ==> r.error == IndexOutOfRange && Collapsed()
      ensures forall k | 0 <= k < 4 :: sprites[k] == if k < |sprs| then sprs[k] else old(sprites)[k]
      ensures r.Ok? && sprites[0].None? ==> Collapsed()
      ensures r.Ok? && sprites[0].Some? ==> size == sprites[0].value.size.AsVec() && Boxed()
      ensures pos == old(pos) && rot == old(rot) && camPos == old(camPos)
    {
      size, dist, mins, maxs := Zero3, Zero3, Zero3, Zero3;
      var i := 0;
      while i < |sprs|
        invariant 0 <= i <= MinI(|sprs|, 4)
        invariant |sprites| == 4
        invariant forall k | 0 <= k < 4 :: sprites[k] == if k < i then sprs[k] else old(sprites)[k]
        invariant Collapsed() && Valid()
        invariant pos == old(pos) && rot == old(rot) && camPos == old(camPos)
      {
        if i >= 4 {
          return Raise(IndexOutOfRange);
        }
        sprites := sprites[i := sprs[i]];
        i := i + 1;
      }
      if sprites[0].Some? {
        size := sprites[0].value.size.AsVec();
        dist := size.Scale(0.5);
        mins := pos.Int().Sub(dist);
        maxs := pos.Int().Add(dist);
      }
      return Ok(());
    }

    /** The sprite for the facing quarter, or the first sprite when that slot is empty. */
    function GetSprite(): (r: Option<Sprite>)
      requires Valid()
      reads this
      ensures r.Some? <==> sprites[Facing(rot.y)].Some? || sprites[0].Some?
      ensures sprites[Facing(rot.y)].Some? ==> r == sprites[Facing(rot.y)]
      ensures sprites[Facing(rot.y)].None? ==> r == sprites[0]
    {
      var angle := FloorMod(RoundHalfEven(rot.y / 90.0), 4);
      if sprites[angle].Some? then sprites[angle] else sprites[0]
    }

    /** Attaches the camera to this object at offset `at`, detaching it from every other registered object. */
    method SetCamera(reg: Registry, at: Option<Vec2>)
      modifies reg.objects`camPos
      ensures forall o | o in reg.objects :: o.camPos == (if o == this then at else None)
    {
      var i := 0;
      while i < |reg.objects|
        invariant 0 <= i <= |reg.objects|
        invariant forall k | 0 <= k < i :: reg.objects[k].camPos == (if reg.objects[k] == this then at else None)
      {
        var o := reg.objects[i];
        o.camPos := if o == this then at else None;
        i := i + 1;
      }
    }
  }

  /** For an integer point and integral corners, the point test is mins < p <= maxs on every axis. */
  lemma IntersectsPoint(o: Object, p: Vec3)
    requires IsIntegral(p.x) && IsIntegral(p.y) && IsIntegral(p.z)
    requires IsIntegral(o.maxs.x) && IsIntegral(o.maxs.y) && IsIntegral(o.maxs.z)
    ensures o.Intersects(p, p) <==>
      o.mins.x < p.x <= o.maxs.x && o.mins.y < p.y <= o.maxs.y && o.mins.z < p.z <= o.maxs.z
  {
    IntegralBelowNext(p.x, o.maxs.x);
    IntegralBelowNext(p.y, o.maxs.y);
    IntegralBelowNext(p.z, o.maxs.z);
  }

  /** Between integral reals, a < b + 1 exactly when a <= b. */
  lemma IntegralBelowNext(a: real, b: real)
    requires IsIntegral(a) && IsIntegral(b)
    ensures a < b + 1.0 <==> a <= b
  {
    var i, j := a.Floor, b.Floor;
    assert a == i as real && b == j as real;
    assert a < b + 1.0 <==> i < j + 1;
  }
}
