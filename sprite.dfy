// Sprites of data.py: a list of animation frames sharing one integer size,
// with bounds-checked writes, box fills, quarter-turn rotation, mirroring,
// overlaying another sprite and a tick-driven choice of the shown frame.

module Sprites {
  import opened Lib
  import opened Voxels

  /** The extent of a sprite on each axis. */
  datatype Dims = Dims(x: int, y: int, z: int) {
    function AsVec(): Vec3 { Vec3(x as real, y as real, z as real) }
  }

  /** The bounds test of set_voxel: the position lies in [0, size) on every axis. */
  predicate InBounds(pos: Vec3, size: Dims) {
    !(pos.x < 0.0 || pos.x >= size.x as real || pos.y < 0.0 || pos.y >= size.y as real ||
      pos.z < 0.0 || pos.z >= size.z as real)
  }

  /** An integer position inside the sprite. */
  predicate Inside(p: Pos, size: Dims) {
    0 <= p.0 < size.x && 0 <= p.1 < size.y && 0 <= p.2 < size.z
  }

  /** A position that passes the bounds test is stored at a key inside the sprite. */
  lemma InBoundsKey(pos: Vec3, size: Dims)
    ensures InBounds(pos, size) ==> Inside(Key(pos), size)
  {
  }

  /** Every voxel of the store lies inside the sprite. */
  ghost predicate Bounded(d: Stacks, size: Dims) {
    forall p | Lookup(d, p).Some? :: Inside(p, size)
  }

  /** A write inside the sprite keeps every voxel inside it. */
  lemma StoredBounded(d: Stacks, p: Pos, mat: Option<Material>, size: Dims)
    requires Bounded(d, size) && Inside(p, size)
    ensures Bounded(Stored(d, p, mat), size)
  {
  }

  /** For integer positions the bounds test is exactly `Inside`. */
  lemma InBoundsOfPos(p: Pos, size: Dims)
    ensures InBounds(ToVec(p), size) <==> Inside(p, size)
    ensures Key(ToVec(p)) == p
  {
    KeyOfToVec(p);
  }

  // ---------------------------------------------------------------------
  // Remaps used by rotate and flip

  /** Where rotate(angle) moves a voxel: quarter turns about the Y axis. */
  function Rotated(angle: int, size: Dims, p: Pos): Pos {
    if angle == 1 then (p.2, p.1, (size.x - 1) - p.0)
    else if angle == 2 then ((size.x - 1) - p.0, p.1, (size.z - 1) - p.2)
    else if angle == 3 then ((size.z - 1) - p.2, p.1, p.0)
    else p
  }

  /** Where flip(x, y, z) moves a voxel: mirrored on each selected axis. */
  function Flipped(fx: bool, fy: bool, fz: bool, size: Dims, p: Pos): Pos {
    var p1 := if fx then ((size.x - 1) - p.0, p.1, p.2) else p;
    var p2 := if fy then (p1.0, (size.y - 1) - p1.1, p1.2) else p1;
    if fz then (p2.0, p2.1, (size.z - 1) - p2.2) else p2
  }

  /** On a sprite with equal X and Z sizes a half turn is two quarter turns. */
  lemma HalfTurnIsTwoQuarters(size: Dims, p: Pos)
    requires size.x == size.z
    ensures Rotated(2, size, p) == Rotated(1, size, Rotated(1, size, p))
  {
  }

  /** Four quarter turns are the identity. */
  lemma FourQuartersIdentity(size: Dims, p: Pos)
    requires size.x == size.z
    ensures Rotated(1, size, Rotated(1, size, Rotated(1, size, Rotated(1, size, p)))) == p
  {
  }

  /**
   * Each rotation maps the inside of a sprite with equal X and Z sizes onto
   * itself one to one: it keeps positions inside and has an inverse rotation.
   */
  lemma RotationBijective(angle: int, size: Dims, p: Pos)
    requires size.x == size.z && 1 <= angle <= 3
    ensures Inside(p, size) ==> Inside(Rotated(angle, size, p), size)
    ensures Rotated(4 - angle, size, Rotated(angle, size, p)) == p
    ensures Rotated(angle, size, Rotated(4 - angle, size, p)) == p
  {
  }

  /** Every flip keeps positions inside and undoes itself. */
  lemma FlipInvolution(fx: bool, fy: bool, fz: bool, size: Dims, p: Pos)
    ensures Inside(p, size) ==> Inside(Flipped(fx, fy, fz, size, p), size)
    ensures Flipped(fx, fy, fz, size, Flipped(fx, fy, fz, size, p)) == p
  {
  }

  // ---------------------------------------------------------------------
  // Replaying a list of voxels into a frame

  /** One set_voxel of a stored position: written when inside, ignored otherwise. */
  function Put(d: Stacks, p: Pos, m: Material, size: Dims): Stacks {
    if Inside(p, size) then Stored(d, p, Some(m)) else d
  }

  /** The store after setting every listed voxel, in order, at its remapped position. */
  function Replay(d: Stacks, items: seq<(Pos, Material)>, size: Dims, remap: Pos -> Pos): Stacks
    decreases |items|
  {
    if items == [] then d
    else
      var n := |items| - 1;
      Put(Replay(d, items[..n], size, remap), remap(items[n].0), items[n].1, size)
  }

  /** The remap of mix: every voxel stays where it is. */
  function Unmoved(p: Pos): Pos { p }

  /** The voxel at `p` once `o` is laid over `d`: `o` wins where it has one. */
  function Overlay(o: Stacks, d: Stacks, p: Pos): Option<Material> {
    if Lookup(o, p).Some? then Lookup(o, p) else Lookup(d, p)
  }

  /** Dropping the last item enumerates the store with that voxel erased. */
  lemma {:induction false} EnumeratesInit(items: seq<(Pos, Material)>, o: Stacks)
    requires Enumerates(items, o) && items != []
    ensures
      var n := |items| - 1;
      Lookup(o, items[n].0) == Some(items[n].1) &&
      Enumerates(items[..n], Stored(o, items[n].0, None))
  {
    var n := |items| - 1;
    var init := items[..n];
    var k := items[n].0;
    var o' := Stored(o, k, None);
    forall p | Lookup(o', p).Some? ensures p in KeysOf(init) {
      assert p != k && Lookup(o, p).Some?;
      assert p in KeysOf(items);
      var i :| 0 <= i < |items| && items[i].0 == p;
      assert i != n;
      assert init[i].0 == p;
    }
    forall i | 0 <= i < n ensures Lookup(o', init[i].0) == Some(init[i].1) {
      assert items[i].0 != items[n].0;
    }
  }

  /**
   * Replaying an enumeration of `o` without remapping lays `o` over `d`,
   * provided every voxel of `o` lies inside the sprite.
   */
  lemma {:induction false} ReplayOverlay(d: Stacks, items: seq<(Pos, Material)>, o: Stacks, size: Dims)
    requires Enumerates(items, o)
    requires forall p | Lookup(o, p).Some? :: Inside(p, size)
    ensures forall p :: Lookup(Replay(d, items, size, Unmoved), p) == Overlay(o, d, p)
    decreases |items|
  {
    if items != [] {
      var n := |items| - 1;
      var k := items[n].0;
      var o' := Stored(o, k, None);
      EnumeratesInit(items, o);
      ReplayOverlay(d, items[..n], o', size);
      var r' := Replay(d, items[..n], size, Unmoved);
      assert Replay(d, items, size, Unmoved) == Stored(r', k, Some(items[n].1));
      forall p ensures Lookup(Replay(d, items, size, Unmoved), p) == Overlay(o, d, p) {
        if p != k {
          assert Lookup(o', p) == Lookup(o, p);
        }
      }
    } else {
      assert forall p :: p !in KeysOf(items);
    }
  }

  /** `remap` moves the inside of the sprite onto itself and `inv` undoes it. */
  ghost predicate Permutes(remap: Pos -> Pos, inv: Pos -> Pos, size: Dims) {
    && (forall p | Inside(p, size) :: Inside(remap(p), size) && inv(remap(p)) == p)
    && (forall q | Inside(q, size) :: Inside(inv(q), size) && remap(inv(q)) == q)
  }

  /** `r` holds at each inside position `q` the voxel `o` holds at `inv(q)`, and nothing outside. */
  ghost predicate Moved(r: Stacks, o: Stacks, inv: Pos -> Pos, size: Dims) {
    forall q :: Lookup(r, q) == if Inside(q, size) then Lookup(o, inv(q)) else None
  }

  /**
   * Replaying an enumeration of `o` into an empty store through a
   * permutation of the sprite's inside moves every voxel and loses none.
   */
  lemma {:induction false} ReplayRemap(items: seq<(Pos, Material)>, o: Stacks, size: Dims,
                                       remap: Pos -> Pos, inv: Pos -> Pos)
    requires Enumerates(items, o) && Bounded(o, size) && Permutes(remap, inv, size)
    ensures Moved(Replay(map[], items, size, remap), o, inv, size)
    decreases |items|
  {
    if items != [] {
      var n := |items| - 1;
      var (k, m) := items[n];
      RemapInit(items, o, size);
      ReplayRemap(items[..n], Stored(o, k, None), size, remap, inv);
      assert Inside(remap(k), size);
      RemapStep(Replay(map[], items[..n], size, remap), o, k, m, size, remap, inv);
    } else {
      assert forall p :: p !in KeysOf(items);
    }
  }

  /** The last listed voxel lies inside, and the rest list `o` without it, which stays inside. */
  lemma RemapInit(items: seq<(Pos, Material)>, o: Stacks, size: Dims)
    requires Enumerates(items, o) && Bounded(o, size) && items != []
    ensures
      var n := |items| - 1;
      var k := items[n].0;
      && Inside(k, size) && Lookup(o, k) == Some(items[n].1)
      && Enumerates(items[..n], Stored(o, k, None)) && Bounded(Stored(o, k, None), size)
  {
    var n := |items| - 1;
    EnumeratesInit(items, o);
    StoredBounded(o, items[n].0, None, size);
  }

  /** Writing the last voxel `k` of `o` at `remap(k)` completes the moved store. */
  lemma RemapStep(r: Stacks, o: Stacks, k: Pos, m: Material, size: Dims, remap: Pos -> Pos, inv: Pos -> Pos)
    requires Permutes(remap, inv, size) && Inside(k, size) && Lookup(o, k) == Some(m)
    requires Moved(r, Stored(o, k, None), inv, size)
    ensures Moved(Stored(r, remap(k), Some(m)), o, inv, size)
  {
    var o' := Stored(o, k, None);
    forall q ensures Lookup(Stored(r, remap(k), Some(m)), q) ==
      if Inside(q, size) then Lookup(o, inv(q)) else None
    {
      if q != remap(k) && Inside(q, size) {
        assert inv(q) != k;
        assert Lookup(o', inv(q)) == Lookup(o, inv(q));
      }
    }
  }

  /** The position a quarter-turn rotation by `angle` takes back to where it came from. */
  function Unrotated(angle: int, size: Dims, q: Pos): Pos {
    Rotated(if 1 <= angle <= 3 then 4 - angle else angle, size, q)
  }

  /** `r` is `o` turned by `angle` quarter turns. */
  ghost predicate RotatedStore(r: Stacks, o: Stacks, angle: int, size: Dims) {
    forall q :: Lookup(r, q) == if Inside(q, size) then Lookup(o, Unrotated(angle, size, q)) else None
  }

  /** `r` is `o` mirrored on the selected axes. */
  ghost predicate FlippedStore(r: Stacks, o: Stacks, fx: bool, fy: bool, fz: bool, size: Dims) {
    forall q :: Lookup(r, q) == if Inside(q, size) then Lookup(o, Flipped(fx, fy, fz, size, q)) else None
  }

  lemma MovedRotated(r: Stacks, o: Stacks, angle: int, size: Dims)
    requires Moved(r, o, q => Unrotated(angle, size, q), size)
    ensures RotatedStore(r, o, angle, size)
  {
  }

  lemma MovedFlipped(r: Stacks, o: Stacks, fx: bool, fy: bool, fz: bool, size: Dims)
    requires Moved(r, o, q => Flipped(fx, fy, fz, size, q), size)
    ensures FlippedStore(r, o, fx, fy, fz, size)
  {
  }

  /** With equal X and Z sizes, every rotation permutes the inside of the sprite. */
  lemma RotationPermutes(angle: int, size: Dims)
    requires size.x == size.z
    ensures Permutes(p => Rotated(angle, size, p), q => Unrotated(angle, size, q), size)
  {
    forall p | Inside(p, size) ensures Inside(Rotated(angle, size, p), size) &&
      Unrotated(angle, size, Rotated(angle, size, p)) == p
    {
      if 1 <= angle <= 3 {
        RotationBijective(angle, size, p);
      }
    }
    forall q | Inside(q, size) ensures Inside(Unrotated(angle, size, q), size) &&
      Rotated(angle, size, Unrotated(angle, size, q)) == q
    {
      if 1 <= angle <= 3 {
        RotationBijective(4 - angle, size, q);
      }
    }
  }

  /** Every flip permutes the inside of the sprite and is its own inverse. */
  lemma FlipPermutes(fx: bool, fy: bool, fz: bool, size: Dims)
    ensures Permutes(p => Flipped(fx, fy, fz, size, p), q => Flipped(fx, fy, fz, size, q), size)
  {
    forall p | Inside(p, size) ensures Inside(Flipped(fx, fy, fz, size, p), size) &&
      Flipped(fx, fy, fz, size, Flipped(fx, fy, fz, size, p)) == p
    {
      FlipInvolution(fx, fy, fz, size, p);
    }
  }

  /** Turning a store a quarter turn twice turns it half way round. */
  lemma TwoQuarterTurns(a: Stacks, b: Stacks, o: Stacks, size: Dims)
    requires size.x == size.z
    requires RotatedStore(a, o, 1, size) && RotatedStore(b, a, 1, size)
    ensures RotatedStore(b, o, 2, size)
  {
    forall q ensures Lookup(b, q) == if Inside(q, size) then Lookup(o, Unrotated(2, size, q)) else None {
      if Inside(q, size) {
        RotationBijective(3, size, q);
        assert Lookup(b, q) == Lookup(a, Unrotated(1, size, q));
        assert Unrotated(1, size, Unrotated(1, size, q)) == Unrotated(2, size, q);
      }
    }
  }

  /**
   * The voxel that rotate is meant to move is lost as written: for a one-voxel
   * frame the quarter-turned store is not empty, while Rotate leaves it empty.
   */
  lemma RotateLosesVoxel(m: Material)
    ensures
      var size := Dims(2, 1, 2);
      var o := Stored(map[], (0, 0, 0), Some(m));
      !RotatedStore(map[], o, 1, size)
  {
    var size := Dims(2, 1, 2);
    var o := Stored(map[], (0, 0, 0), Some(m));
    assert Rotated(1, size, (0, 0, 0)) == (0, 0, 1);
    assert Unrotated(1, size, (0, 0, 1)) == (0, 0, 0);
    assert Lookup(map[], (0, 0, 1)) == None;
  }

  /** Likewise a mirrored one-voxel frame is not empty, while Flip leaves it empty. */
  lemma FlipLosesVoxel(m: Material)
    ensures
      var size := Dims(2, 1, 1);
      var o := Stored(map[], (0, 0, 0), Some(m));
      !FlippedStore(map[], o, true, false, false, size)
  {
    var size := Dims(2, 1, 1);
    assert Flipped(true, false, false, size, (1, 0, 0)) == (0, 0, 0);
    assert Lookup(map[], (1, 0, 0)) == None;
  }

  // ---------------------------------------------------------------------
  // Animation

  /**
   * anim_frame at time `ticks`: start + (ticks // time) % (end - start) when
   * an animation is set and there is more than one frame, else 0. The float
   * modulo by zero raises.
   */
  function FrameAt(start: int, end: int, time: real, count: nat, ticks: int): (r: Outcome<int>)
    ensures time == 0.0 || count <= 1 ==> r == Ok(0)
    ensures time != 0.0 && count > 1 && start == end ==> r == Raise(ZeroDivision)
    ensures time != 0.0 && count > 1 && start < end ==> r.Ok? && start <= r.value < end
    ensures time != 0.0 && count > 1 && end < start ==> r.Ok? && end < r.value <= start
  {
    if time != 0.0 && count > 1 then
      if end - start == 0 then Raise(ZeroDivision)
      else Ok(start + FloorMod((ticks as real / time).Floor, end - start))
    else Ok(0)
  }

  /** A frame index picked by the caller, or the animation frame when None. */
  function FrameChoice(frame: Option<int>, start: int, end: int, time: real, count: nat, ticks: int): Outcome<int> {
    if frame.Some? then Ok(frame.value) else FrameAt(start, end, time, count, ticks)
  }

  // ---------------------------------------------------------------------
  // Sprite

  class Sprite {
    var size: Dims
    var frames: seq<Frame>
    var frameStart: int
    var frameEnd: int
    var frameTime: real

    /** Frames are distinct objects and every stored voxel lies inside the sprite. */
    ghost predicate Valid()
      reads this, frames
    {
      && (forall i, j | 0 <= i < j < |frames| :: frames[i] != frames[j])
      && (forall i | 0 <= i < |frames| :: Bounded(frames[i].data, size))
    }

    /** A sprite of the given size (zero when absent) with `count` empty frames. */
    constructor (size: Option<Dims>, count: int)
      ensures this.size == (if size.Some? then size.value else Dims(0, 0, 0))
      ensures |frames| == MaxI(count, 0)
      ensures forall i | 0 <= i < |frames| :: fresh(frames[i]) && frames[i].data == map[]
      ensures frameStart == 0 && frameEnd == 0 && frameTime == 0.0
      ensures Valid()
    {
      var fs: seq<Frame> := [];
      var i := 0;
      while i < count
        invariant |fs| == i && 0 <= i <= MaxI(count, 0)
        invariant forall k | 0 <= k < i :: fresh(fs[k]) && fs[k].data == map[]
        invariant forall k, l | 0 <= k < l < i :: fs[k] != fs[l]
      {
        var fr := new Frame();
        fs := fs + [fr];
        i := i + 1;
      }
      this.size := if size.Some? then size.value else Dims(0, 0, 0);
      frames := fs;
      frameStart, frameEnd, frameTime := 0, 0, 0.0;
    }

    /** Empties one frame; an index out of range raises. */
    method Clear(frame: int) returns (r: Outcome<()>)
      requires Valid()
      modifies frames
      ensures Valid()
      ensures r == (if PyIndex(frame, |frames|).Some? then Ok(()) else Raise(IndexOutOfRange))
      ensures forall i | 0 <= i < |frames| ::
        frames[i].data == (if PyIndex(frame, |frames|) == Some(i) then map[] else old(frames[i].data))
    {
      var k := PyIndex(frame, |frames|);
      if k.None? {
        return Raise(IndexOutOfRange);
      }
      var voxels := frames[k.value];
      voxels.Clear();
      EmptyMap(voxels.data);
      return Ok(());
    }

    /** Sets the animation range, each end clamped to the frame count, and the speed in ms. */
    method AnimSet(start: int, end: int, time: real)
      modifies this
      ensures frameStart == MinI(start, |frames|) && frameEnd == MinI(end, |frames|)
      ensures frameTime == time * 1000.0
      ensures size == old(size) && frames == old(frames)
    {
      frameStart := MinI(start, |frames|);
      frameEnd := MinI(end, |frames|);
      frameTime := time * 1000.0;
    }

    /** The frame shown at time `ticks`. */
    function AnimFrame(ticks: int): Outcome<int>
      reads this
    {
      FrameAt(frameStart, frameEnd, frameTime, |frames|, ticks)
    }

    /**
     * The voxel at a position of the given frame, or of the animation frame
     * when `frame` is None; a bad frame index raises.
     */
    function GetVoxel(frame: Option<int>, pos: Vec3, ticks: int): (r: Outcome<Option<Material>>)
      reads this, frames
      ensures
        var c := FrameChoice(frame, frameStart, frameEnd, frameTime, |frames|, ticks);
        && (c.Raise? ==> r == Raise(c.error))
        && (c.Ok? && PyIndex(c.value, |frames|).None? ==> r == Raise(IndexOutOfRange))
        && (c.Ok? && PyIndex(c.value, |frames|).Some? ==>
              r == Ok(Get(frames[PyIndex(c.value, |frames|).value].Voxels(), Key(pos))))
    {
      var c := if frame.Some? then Ok(frame.value) else AnimFrame(ticks);
      if c.Raise? then Raise(c.error)
      else
        match PyIndex(c.value, |frames|)
        case None => Raise(IndexOutOfRange)
        case Some(k) => Ok(frames[k].GetVoxel(pos))
    }

    /** Every voxel of the given frame (or the animation frame when None). */
    method GetVoxels(frame: Option<int>, ticks: int) returns (r: Outcome<seq<(Pos, Material)>>)
      ensures
        var c := FrameChoice(frame, frameStart, frameEnd, frameTime, |frames|, ticks);
        && (c.Raise? ==> r == Raise(c.error))
        && (c.Ok? && PyIndex(c.value, |frames|).None? ==> r == Raise(IndexOutOfRange))
        && (c.Ok? && PyIndex(c.value, |frames|).Some? ==>
              r.Ok? && Enumerates(r.value, frames[PyIndex(c.value, |frames|).value].data))
    {
      var c := if frame.Some? then Ok(frame.value) else AnimFrame(ticks);
      if c.Raise? {
        return Raise(c.error);
      }
      var k := PyIndex(c.value, |frames|);
      if k.None? {
        return Raise(IndexOutOfRange);
      }
      var items := frames[k.value].GetVoxels();
      return Ok(items);
    }

    /**
     * Sets or erases one voxel. A position outside [0, size) on any axis is
     * refused before the frame is looked up (Ok(false)); a bad frame index
     * then raises; otherwise the voxel is written (Ok(true)).
     */
    method SetVoxel(frame: int, pos: Vec3, mat: Option<Material>) returns (r: Outcome<bool>)
      requires Valid()
      modifies frames
      ensures Valid()
      ensures r == (if !InBounds(pos, size) then Ok(false)
                    else if PyIndex(frame, |frames|).None? then Raise(IndexOutOfRange)
                    else Ok(true))
      ensures forall i | 0 <= i < |frames| ::
        frames[i].data == (if r == Ok(true) && PyIndex(frame, |frames|) == Some(i)
                           then Stored(old(frames[i].data), Key(pos), mat)
                           else old(frames[i].data))
    {
      if !InBounds(pos, size) {
        return Ok(false);
      }
      var k := PyIndex(frame, |frames|);
      if k.None? {
        return Raise(IndexOutOfRange);
      }
      InBoundsKey(pos, size);
      WriteFrame(k.value, pos, mat);
      return Ok(true);
    }

    /** The write of set_voxel once the position and the frame are accepted. */
    method WriteFrame(f: nat, pos: Vec3, mat: Option<Material>)
      requires Valid() && f < |frames| && Inside(Key(pos), size)
      modifies frames
      ensures Valid()
      ensures forall i | 0 <= i < |frames| ::
        frames[i].data == (if i == f then Stored(old(frames[i].data), Key(pos), mat) else old(frames[i].data))
    {
      var fr := frames[f];
      StoredBounded(fr.data, Key(pos), mat, size);
      fr.SetVoxel(pos, mat);
      forall i | 0 <= i < |frames| && i != f ensures frames[i].data == old(frames[i].data) {
        assert frames[i] != fr;
      }
    }

    /**
     * Sets `mat` on every integer point of the box from int(lo) up to but not
     * including int(hi + 1) on each axis, one set_voxel at a time; points
     * outside the sprite are skipped. The first in-bounds point raises when
     * the frame index is bad, and nothing has been written by then.
     */
    method SetVoxelArea(frame: int, pmin: Vec3, pmax: Vec3, mat: Option<Material>) returns (r: Outcome<()>)
      requires Valid()
      modifies frames
      ensures Valid()
      ensures
        var lo := Key(pmin);
        var hi := AreaEnd(pmax);
        PyIndex(frame, |frames|).None? ==>
          && r == (if AreaNonEmpty(lo, hi, size) then Raise(IndexOutOfRange) else Ok(()))
          && forall i | 0 <= i < |frames| :: frames[i].data == old(frames[i].data)
      ensures
        var lo := Key(pmin);
        var hi := AreaEnd(pmax);
        PyIndex(frame, |frames|).Some? ==>
          && r == Ok(())
          && (forall i | 0 <= i < |frames| && PyIndex(frame, |frames|) != Some(i) ::
                frames[i].data == old(frames[i].data))
          && (forall p :: Lookup(frames[PyIndex(frame, |frames|).value].data, p) ==
                if InArea(p, lo, hi, size) then mat
                else Lookup(old(frames[PyIndex(frame, |frames|).value].data), p))
    {
      var lo := Key(pmin);
      var hi := AreaEnd(pmax);
      ghost var target := PyIndex(frame, |frames|);
      ghost var d0 := if target.Some? then frames[target.value].data else map[];
      var x := lo.0;
      while x < hi.0
        invariant lo.0 <= x <= MaxI(lo.0, hi.0)
        invariant Valid()
        invariant forall i | 0 <= i < |frames| && target != Some(i) :: frames[i].data == old(frames[i].data)
        invariant Progress(frame, (x, lo.1, lo.2), lo, hi, mat, d0)
      {
        r := FillPlane(frame, x, lo, hi, mat, d0);
        if r.Raise? {
          return;
        }
        x := x + 1;
      }
      if target.None? {
        AreaWitness(AreaCorner(lo, size), lo, hi, size);
      } else {
        FillDone(frames[target.value].data, d0, x, lo, hi, size, mat);
      }
      return Ok(());
    }

    /**
     * The loop state of set_voxel_area with `c` the next point to visit: with
     * a good frame index the area points before `c` are written, otherwise no
     * area point precedes `c`.
     */
    ghost predicate Progress(frame: int, c: Pos, lo: Pos, hi: Pos, mat: Option<Material>, d0: Stacks)
      reads this, frames
    {
      match PyIndex(frame, |frames|)
      case None => NoneBefore(c, lo, hi, size)
      case Some(k) => Filled(frames[k].data, d0, c, lo, hi, size, mat)
    }

    /** The middle loop of set_voxel_area: every row of the plane at `x`. */
    method FillPlane(frame: int, x: int, lo: Pos, hi: Pos, mat: Option<Material>, ghost d0: Stacks)
      returns (r: Outcome<()>)
      requires Valid() && lo.0 <= x < hi.0
      requires Progress(frame, (x, lo.1, lo.2), lo, hi, mat, d0)
      modifies frames
      ensures Valid()
      ensures forall i | 0 <= i < |frames| && PyIndex(frame, |frames|) != Some(i) ::
        frames[i].data == old(frames[i].data)
      ensures r.Raise? ==>
        r == Raise(IndexOutOfRange) && PyIndex(frame, |frames|).None? && AreaNonEmpty(lo, hi, size)
      ensures r.Ok? ==> Progress(frame, (x + 1, lo.1, lo.2), lo, hi, mat, d0)
    {
      var y := lo.1;
      while y < hi.1
        invariant lo.1 <= y <= MaxI(lo.1, hi.1)
        invariant Valid()
        invariant forall i | 0 <= i < |frames| && PyIndex(frame, |frames|) != Some(i) ::
          frames[i].data == old(frames[i].data)
        invariant Progress(frame, (x, y, lo.2), lo, hi, mat, d0)
      {
        r := FillRow(frame, x, y, lo, hi, mat, d0);
        if r.Raise? {
          return;
        }
        y := y + 1;
      }
      FillPlaneDone(x, y, lo, hi, size);
      return Ok(());
    }

    /** The inner loop of set_voxel_area: every point of the row at `x`, `y`. */
    method FillRow(frame: int, x: int, y: int, lo: Pos, hi: Pos, mat: Option<Material>, ghost d0: Stacks)
      returns (r: Outcome<()>)
      requires Valid() && lo.0 <= x < hi.0 && lo.1 <= y < hi.1
      requires Progress(frame, (x, y, lo.2), lo, hi, mat, d0)
      modifies frames
      ensures Valid()
      ensures forall i | 0 <= i < |frames| && PyIndex(frame, |frames|) != Some(i) ::
        frames[i].data == old(frames[i].data)
      ensures r.Raise? ==>
        r == Raise(IndexOutOfRange) && PyIndex(frame, |frames|).None? && AreaNonEmpty(lo, hi, size)
      ensures r.Ok? ==> Progress(frame, (x, y + 1, lo.2), lo, hi, mat, d0)
    {
      var z := lo.2;
      while z < hi.2
        invariant lo.2 <= z <= MaxI(lo.2, hi.2)
        invariant Valid()
        invariant forall i | 0 <= i < |frames| && PyIndex(frame, |frames|) != Some(i) ::
          frames[i].data == old(frames[i].data)
        invariant Progress(frame, (x, y, z), lo, hi, mat, d0)
      {
        r := FillPoint(frame, (x, y, z), lo, hi, mat, d0);
        if r.Raise? {
          return;
        }
        z := z + 1;
      }
      FillRowDone(x, y, z, lo, hi, size);
      return Ok(());
    }

    /** The innermost step of set_voxel_area: one set_voxel at the point `c` of the box. */
    method FillPoint(frame: int, c: Pos, lo: Pos, hi: Pos, mat: Option<Material>, ghost d0: Stacks)
      returns (r: Outcome<()>)
      requires Valid() && lo.0 <= c.0 < hi.0 && lo.1 <= c.1 < hi.1 && lo.2 <= c.2 < hi.2
      requires Progress(frame, c, lo, hi, mat, d0)
      modifies frames
      ensures Valid()
      ensures forall i | 0 <= i < |frames| && PyIndex(frame, |frames|) != Some(i) ::
        frames[i].data == old(frames[i].data)
      ensures r.Raise? ==>
        r == Raise(IndexOutOfRange) && PyIndex(frame, |frames|).None? && AreaNonEmpty(lo, hi, size)
      ensures r.Ok? ==> Progress(frame, (c.0, c.1, c.2 + 1), lo, hi, mat, d0)
    {
      InBoundsOfPos(c, size);
      ghost var d := if PyIndex(frame, |frames|).Some? then frames[PyIndex(frame, |frames|).value].data else map[];
      var s := SetVoxel(frame, ToVec(c), mat);
      if s.Raise? {
        AreaWitness(c, lo, hi, size);
        return Raise(IndexOutOfRange);
      }
      if PyIndex(frame, |frames|).Some? {
        FillStep(d, d0, c, lo, hi, size, mat);
      } else {
        FillStep(d0, d0, c, lo, hi, size, None);
      }
      return Ok(());
    }

    /**
     * Re-sets every listed voxel of frame `f` at its remapped position; this
     * is the inner loop of rotate, flip and mix.
     */
    method SetItems(f: nat, items: seq<(Pos, Material)>, remap: Pos -> Pos)
      requires Valid() && f < |frames|
      modifies frames
      ensures Valid()
      ensures frames[f].data == Replay(old(frames[f].data), items, size, remap)
      ensures forall i | 0 <= i < |frames| && i != f :: frames[i].data == old(frames[i].data)
    {
      var n := 0;
      while n < |items|
        invariant 0 <= n <= |items|
        invariant Valid()
        invariant frames[f].data == Replay(old(frames[f].data), items[..n], size, remap)
        invariant forall i | 0 <= i < |frames| && i != f :: frames[i].data == old(frames[i].data)
      {
        var (pos, item) := items[n];
        InBoundsOfPos(remap(pos), size);
        var s := SetVoxel(f, ToVec(remap(pos)), Some(item));
        assert items[..n + 1][..n] == items[..n];
        n := n + 1;
      }
      assert items[..|items|] == items;
    }

    /**
     * Rotates every frame by `angle` quarter turns, refused when the X and Z
     * sizes differ. As written each frame is cleared before its voxels are
     * listed, and the list comes from that same cleared frame, so every
     * frame ends empty.
     */
    method Rotate(angle: int)
      requires Valid()
      modifies frames
      ensures Valid()
      ensures size.x != size.z ==> forall i | 0 <= i < |frames| :: frames[i].data == old(frames[i].data)
      ensures size.x == size.z ==> forall i | 0 <= i < |frames| :: frames[i].data == map[]
    {
      if size.x != size.z {
        return;
      }
      var sz := size;
      var f := 0;
      while f < |frames|
        invariant 0 <= f <= |frames|
        invariant Valid()
        invariant forall i | 0 <= i < f :: frames[i].data == map[]
        invariant forall i | f <= i < |frames| :: frames[i].data == old(frames[i].data)
      {
        var voxels := frames[f];
        var cleared := Clear(f);
        var items := voxels.GetVoxels();
        EnumeratesHead(items, voxels.data);
        SetItems(f, items, p => Rotated(angle, sz, p));
        f := f + 1;
      }
    }

    /**
     * Mirrors every frame on the selected axes. As with rotate, each frame
     * is cleared before its own voxels are listed, so every frame ends empty.
     */
    method Flip(fx: bool, fy: bool, fz: bool)
      requires Valid()
      modifies frames
      ensures Valid()
      ensures forall i | 0 <= i < |frames| :: frames[i].data == map[]
    {
      var sz := size;
      var f := 0;
      while f < |frames|
        invariant 0 <= f <= |frames|
        invariant Valid()
        invariant forall i | 0 <= i < f :: frames[i].data == map[]
      {
        var voxels := frames[f];
        var cleared := Clear(f);
        var items := voxels.GetVoxels();
        EnumeratesHead(items, voxels.data);
        SetItems(f, items, p => Flipped(fx, fy, fz, sz, p));
        f := f + 1;
      }
    }

    /**
     * What rotate evidently means: each frame's voxels are listed before the
     * frame is cleared, then written back at their turned positions.
     */
    method RotateCorrected(angle: int)
      requires Valid()
      modifies frames
      ensures Valid()
      ensures size.x != size.z ==> forall i | 0 <= i < |frames| :: frames[i].data == old(frames[i].data)
      ensures size.x == size.z ==> forall i | 0 <= i < |frames| ::
        RotatedStore(frames[i].data, old(frames[i].data), angle, size)
    {
      if size.x != size.z {
        return;
      }
      var f := 0;
      while f < |frames|
        invariant 0 <= f <= |frames|
        invariant Valid()
        invariant forall i | 0 <= i < f :: RotatedStore(frames[i].data, old(frames[i].data), angle, size)
        invariant forall i | f <= i < |frames| :: frames[i].data == old(frames[i].data)
      {
        RotateFrame(f, angle);
        f := f + 1;
      }
    }

    /** What flip evidently means: the voxels are listed first, then mirrored back in. */
    method FlipCorrected(fx: bool, fy: bool, fz: bool)
      requires Valid()
      modifies frames
      ensures Valid()
      ensures forall i | 0 <= i < |frames| ::
        FlippedStore(frames[i].data, old(frames[i].data), fx, fy, fz, size)
    {
      var f := 0;
      while f < |frames|
        invariant 0 <= f <= |frames|
        invariant Valid()
        invariant forall i | 0 <= i < f :: FlippedStore(frames[i].data, old(frames[i].data), fx, fy, fz, size)
        invariant forall i | f <= i < |frames| :: frames[i].data == old(frames[i].data)
      {
        FlipFrame(f, fx, fy, fz);
        f := f + 1;
      }
    }

    /** One frame of the corrected rotate. */
    method RotateFrame(f: nat, angle: int)
      requires Valid() && f < |frames| && size.x == size.z
      modifies frames
      ensures Valid()
      ensures RotatedStore(frames[f].data, old(frames[f].data), angle, size)
      ensures forall i | 0 <= i < |frames| && i != f :: frames[i].data == old(frames[i].data)
    {
      var sz := size;
      ghost var o := frames[f].data;
      RotationPermutes(angle, sz);
      RemapFrame(f, p => Rotated(angle, sz, p), q => Unrotated(angle, sz, q));
      MovedRotated(frames[f].data, o, angle, sz);
    }

    /** One frame of the corrected flip. */
    method FlipFrame(f: nat, fx: bool, fy: bool, fz: bool)
      requires Valid() && f < |frames|
      modifies frames
      ensures Valid()
      ensures FlippedStore(frames[f].data, old(frames[f].data), fx, fy, fz, size)
      ensures forall i | 0 <= i < |frames| && i != f :: frames[i].data == old(frames[i].data)
    {
      var sz := size;
      ghost var o := frames[f].data;
      FlipPermutes(fx, fy, fz, sz);
      RemapFrame(f, p => Flipped(fx, fy, fz, sz, p), q => Flipped(fx, fy, fz, sz, q));
      MovedFlipped(frames[f].data, o, fx, fy, fz, sz);
    }

    /** List, clear, and write back through `remap`: the voxels move and none is lost. */
    method RemapFrame(f: nat, remap: Pos -> Pos, inv: Pos -> Pos)
      requires Valid() && f < |frames| && Permutes(remap, inv, size)
      modifies frames
      ensures Valid()
      ensures Moved(frames[f].data, old(frames[f].data), inv, size)
      ensures forall i | 0 <= i < |frames| && i != f :: frames[i].data == old(frames[i].data)
    {
      var items := frames[f].GetVoxels();
      ReplayRemap(items, frames[f].data, size, remap, inv);
      var cleared := Clear(f);
      SetItems(f, items, remap);
    }

    /**
     * Lays the voxels of `other` over this sprite frame by frame, for as many
     * frames as both have; refused when the sizes differ. Empty positions of
     * `other` keep this sprite's voxel.
     */
    method Mix(other: Sprite)
      requires Valid() && other.Valid()
      requires other == this ||
        forall i, j | 0 <= i < |other.frames| && 0 <= j < |frames| :: other.frames[i] != frames[j]
      modifies frames
      ensures Valid()
      ensures size != other.size ==> forall i | 0 <= i < |frames| :: frames[i].data == old(frames[i].data)
      ensures size == other.size ==> forall i | 0 <= i < |frames| ::
        if i < |other.frames| then
          forall p :: Lookup(frames[i].data, p) == Overlay(old(other.frames[i].data), old(frames[i].data), p)
        else frames[i].data == old(frames[i].data)
    {
      if size != other.size {
        return;
      }
      var count := MinI(|frames|, |other.frames|);
      var f := 0;
      while f < count
        invariant 0 <= f <= count
        invariant Valid() && other.Valid()
        invariant forall i | 0 <= i < f :: forall p ::
          Lookup(frames[i].data, p) == Overlay(old(other.frames[i].data), old(frames[i].data), p)
        invariant forall i | f <= i < |frames| :: frames[i].data == old(frames[i].data)
        invariant forall i | f <= i < |other.frames| :: other.frames[i].data == old(other.frames[i].data)
      {
        MixFrame(f, other);
        f := f + 1;
      }
    }

    /** One step of mix: the voxels of frame `f` of `other` laid over frame `f`. */
    method MixFrame(f: nat, other: Sprite)
      requires Valid() && other.Valid() && size == other.size
      requires f < |frames| && f < |other.frames|
      requires other == this ||
        forall i, j | 0 <= i < |other.frames| && 0 <= j < |frames| :: other.frames[i] != frames[j]
      modifies frames
      ensures Valid() && other.Valid()
      ensures forall p :: Lookup(frames[f].data, p) == Overlay(old(other.frames[f].data), old(frames[f].data), p)
      ensures forall i | 0 <= i < |frames| && i != f :: frames[i].data == old(frames[i].data)
      ensures forall i | 0 <= i < |other.frames| && i != f :: other.frames[i].data == old(other.frames[i].data)
    {
      var voxels := other.frames[f];
      var items := voxels.GetVoxels();
      ReplayOverlay(frames[f].data, items, voxels.data, size);
      SetItems(f, items, Unmoved);
    }

    /** An independent copy: new frames holding the same voxels. */
    method Clone() returns (s: Sprite)
      requires Valid()
      ensures fresh(s) && s.Valid()
      ensures s.size == size && |s.frames| == |frames|
      ensures forall i | 0 <= i < |s.frames| :: fresh(s.frames[i]) && s.frames[i].data == frames[i].data
      ensures s.frameStart == frameStart && s.frameEnd == frameEnd && s.frameTime == frameTime
    {
      s := new Sprite(Some(size), |frames|);
      var i := 0;
      while i < |frames|
        invariant 0 <= i <= |frames| == |s.frames|
        invariant s.size == size
        invariant forall k | 0 <= k < |s.frames| :: fresh(s.frames[k])
        invariant forall k, l | 0 <= k < l < |s.frames| :: s.frames[k] != s.frames[l]
        invariant forall k | 0 <= k < i :: s.frames[k].data == frames[k].data
        invariant forall k | i <= k < |s.frames| :: s.frames[k].data == map[]
      {
        s.frames[i].data := frames[i].data;
        i := i + 1;
      }
      s.frameStart, s.frameEnd, s.frameTime := frameStart, frameEnd, frameTime;
    }

    /** A clone turned by `angle` quarter turns, as get_rotations builds each one. */
    method RotatedCopy(angle: int) returns (s: Sprite)
      requires Valid()
      ensures fresh(s) && s.size == size && |s.frames| == |frames| && s.Valid()
      ensures forall i | 0 <= i < |frames| ::
        s.frames[i].data == (if size.x == size.z then map[] else frames[i].data)
    {
      s := Clone();
      s.Rotate(angle);
    }

    /**
     * This sprite and clones turned by 90, 180 and 270 degrees. This sprite
     * is left as it was; the clones end empty when X and Z sizes are equal
     * (see Rotate) and keep the original voxels otherwise.
     */
    method GetRotations() returns (r0: Sprite, r90: Sprite, r180: Sprite, r270: Sprite)
      requires Valid()
      ensures r0 == this
      ensures fresh(r90) && fresh(r180) && fresh(r270)
      ensures forall s | s in {r90, r180, r270} ::
        && s.size == size && |s.frames| == |frames| && s.Valid()
        && forall i | 0 <= i < |frames| ::
             s.frames[i].data == (if size.x == size.z then map[] else frames[i].data)
    {
      r0 := this;
      r90 := RotatedCopy(1);
      r180 := RotatedCopy(2);
      r270 := RotatedCopy(3);
    }
  }

  /** The exclusive upper corner of set_voxel_area: int(hi + 1) on each axis. */
  function AreaEnd(pmax: Vec3): Pos {
    Key(Vec3(pmax.x + 1.0, pmax.y + 1.0, pmax.z + 1.0))
  }

  /** The points set_voxel_area writes: inside the box [lo, hi) and inside the sprite. */
  predicate InArea(p: Pos, lo: Pos, hi: Pos, size: Dims) {
    lo.0 <= p.0 < hi.0 && lo.1 <= p.1 < hi.1 && lo.2 <= p.2 < hi.2 && Inside(p, size)
  }

  /** Whether the box meets the sprite on every axis. */
  predicate AreaNonEmpty(lo: Pos, hi: Pos, size: Dims) {
    MaxI(lo.0, 0) < MinI(hi.0, size.x) &&
    MaxI(lo.1, 0) < MinI(hi.1, size.y) &&
    MaxI(lo.2, 0) < MinI(hi.2, size.z)
  }

  /** Whether `p` comes before the point `c` in the x, then y, then z visiting order. */
  predicate Before(p: Pos, c: Pos) {
    p.0 < c.0 || (p.0 == c.0 && (p.1 < c.1 || (p.1 == c.1 && p.2 < c.2)))
  }

  /** Every area point visited before `c` holds `mat`; every other voxel is as in `d0`. */
  ghost predicate Filled(d: Stacks, d0: Stacks, c: Pos, lo: Pos, hi: Pos, size: Dims, mat: Option<Material>) {
    forall p :: Lookup(d, p) == (if InArea(p, lo, hi, size) && Before(p, c) then mat else Lookup(d0, p))
  }

  /** No area point comes before `c`. */
  ghost predicate NoneBefore(c: Pos, lo: Pos, hi: Pos, size: Dims) {
    forall p | InArea(p, lo, hi, size) :: !Before(p, c)
  }

  /** Visiting the point `c` of the box writes it when it is inside the sprite. */
  lemma FillStep(d: Stacks, d0: Stacks, c: Pos, lo: Pos, hi: Pos, size: Dims, mat: Option<Material>)
    requires lo.0 <= c.0 < hi.0 && lo.1 <= c.1 < hi.1 && lo.2 <= c.2 < hi.2
    requires Filled(d, d0, c, lo, hi, size, mat)
    ensures Filled(if Inside(c, size) then Stored(d, c, mat) else d, d0, (c.0, c.1, c.2 + 1), lo, hi, size, mat)
    ensures NoneBefore(c, lo, hi, size) && !Inside(c, size) ==> NoneBefore((c.0, c.1, c.2 + 1), lo, hi, size)
  {
  }

  /** Finishing a row moves the cursor to the start of the next row. */
  lemma FillRowDone(x: int, y: int, z: int, lo: Pos, hi: Pos, size: Dims)
    requires hi.2 <= z
    ensures forall d, d0, mat :: Filled(d, d0, (x, y, z), lo, hi, size, mat) ==>
      Filled(d, d0, (x, y + 1, lo.2), lo, hi, size, mat)
    ensures NoneBefore((x, y, z), lo, hi, size) ==> NoneBefore((x, y + 1, lo.2), lo, hi, size)
  {
  }

  /** Finishing a plane moves the cursor to the start of the next plane. */
  lemma FillPlaneDone(x: int, y: int, lo: Pos, hi: Pos, size: Dims)
    requires hi.1 <= y
    ensures forall d, d0, mat :: Filled(d, d0, (x, y, lo.2), lo, hi, size, mat) ==>
      Filled(d, d0, (x + 1, lo.1, lo.2), lo, hi, size, mat)
    ensures NoneBefore((x, y, lo.2), lo, hi, size) ==> NoneBefore((x + 1, lo.1, lo.2), lo, hi, size)
  {
  }

  /** Once the cursor has passed the box, every area point holds `mat`. */
  lemma FillDone(d: Stacks, d0: Stacks, x: int, lo: Pos, hi: Pos, size: Dims, mat: Option<Material>)
    requires hi.0 <= x && Filled(d, d0, (x, lo.1, lo.2), lo, hi, size, mat)
    ensures forall p :: Lookup(d, p) == if InArea(p, lo, hi, size) then mat else Lookup(d0, p)
  {
  }

  /** The lowest point the box and the sprite share, when they meet. */
  function AreaCorner(lo: Pos, size: Dims): Pos {
    (MaxI(lo.0, 0), MaxI(lo.1, 0), MaxI(lo.2, 0))
  }

  /** The area has a point exactly when it meets the sprite on every axis, its corner. */
  lemma AreaWitness(p: Pos, lo: Pos, hi: Pos, size: Dims)
    ensures InArea(p, lo, hi, size) ==> AreaNonEmpty(lo, hi, size)
    ensures AreaNonEmpty(lo, hi, size) ==> InArea(AreaCorner(lo, size), lo, hi, size)
  {
  }
}
