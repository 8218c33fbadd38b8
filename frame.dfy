// The sparse voxel store of data.py: a Frame keeps materials in three levels
// of dictionaries keyed by the x, y and z coordinates, each truncated toward
// zero. The model refines that nested store into one flat map from integer
// positions to materials and proves every operation against the flat map.

module Voxels {
  import opened Lib

  /** Which of the six faces of a voxel reflect: +x, -x, +y, -y, +z, -z. */
  datatype Normals = Normals(px: bool, nx: bool, py: bool, ny: bool, pz: bool, nz: bool)

  /** The physical properties the material and tracer functions read. */
  datatype Material = Material(
    albedo: Rgb,
    roughness: real,
    metalicity: real,
    ior: real,
    density: real,
    energy: real,
    normals: Normals)

  /** An integer voxel position (x, y, z). */
  type Pos = (int, int, int)

  /** The nested dictionaries data[x][y][z]. */
  type Stacks = map<int, map<int, map<int, Material>>>

  /** The storage key of a position: every axis truncated toward zero. */
  function Key(pos: Vec3): Pos {
    (Trunc(pos.x), Trunc(pos.y), Trunc(pos.z))
  }

  function ToVec(p: Pos): Vec3 {
    Vec3(p.0 as real, p.1 as real, p.2 as real)
  }

  lemma KeyOfToVec(p: Pos)
    ensures Key(ToVec(p)) == p
  {
    TruncOfInt(p.0);
    TruncOfInt(p.1);
    TruncOfInt(p.2);
  }

  /** The abstract content of a store: every stored (x, y, z) and its material. */
  function Flatten(d: Stacks): map<Pos, Material> {
    map x, y, z | x in d && y in d[x] && z in d[x][y] :: (x, y, z) := d[x][y][z]
  }

  /** A lookup in the flat map, None where nothing is stored. */
  function Get(m: map<Pos, Material>, p: Pos): Option<Material> {
    if p in m then Some(m[p]) else None
  }

  /** The nested read data[x][y][z], None as soon as one level is missing. */
  function Lookup(d: Stacks, p: Pos): Option<Material> {
    if p.0 in d && p.1 in d[p.0] && p.2 in d[p.0][p.1] then Some(d[p.0][p.1][p.2]) else None
  }

  /** The nested read agrees with the flat map at every position. */
  lemma FlattenLookup(d: Stacks, p: Pos)
    ensures Get(Flatten(d), p) == Lookup(d, p)
  {
    if Lookup(d, p).Some? {
      var (x, y, z) := p;
      assert (x, y, z) in Flatten(d);
    }
  }

  /** Two stores that answer every lookup alike have the same flat content. */
  lemma FlattenAgree(d: Stacks, m: map<Pos, Material>)
    requires forall p :: Lookup(d, p) == Get(m, p)
    ensures Flatten(d) == m
  {
    forall p ensures Get(Flatten(d), p) == Get(m, p) {
      FlattenLookup(d, p);
    }
    GetExtensional(Flatten(d), m);
  }

  /** Flat maps that answer every lookup alike are equal. */
  lemma GetExtensional(a: map<Pos, Material>, m: map<Pos, Material>)
    requires forall p :: Get(a, p) == Get(m, p)
    ensures a == m
  {
    forall p | p in a ensures p in m && a[p] == m[p] {
      assert Get(a, p) == Get(m, p);
    }
    forall p | p in m ensures p in a {
      assert Get(a, p) == Get(m, p);
    }
  }

  /** The flat effect of writing `mat` at `p`: store it, or erase `p` on None. */
  function Written(m: map<Pos, Material>, p: Pos, mat: Option<Material>): (w: map<Pos, Material>)
    ensures Get(w, p) == mat
    ensures forall q | q != p :: Get(w, q) == Get(m, q)
  {
    match mat
    case Some(v) => m[p := v]
    case None => m - {p}
  }

  /**
   * What one set_voxel does to the nested stores. A store is created on the
   * way down when needed. An erase removes an empty x- or y-stack it meets
   * instead of descending further, so emptied stacks are pruned lazily.
   */
  function Stored(d: Stacks, p: Pos, mat: Option<Material>): (e: Stacks)
    ensures Lookup(e, p) == mat
    ensures forall q | q != p :: Lookup(e, q) == Lookup(d, q)
  {
    var (x, y, z) := p;
    match mat
    case Some(v) =>
      var dx := if x in d then d[x] else map[];
      var dy := if y in dx then dx[y] else map[];
      d[x := dx[y := dy[z := v]]]
    case None =>
      if x !in d then d
      else if d[x] == map[] then d - {x}
      else if y !in d[x] then d
      else if d[x][y] == map[] then d[x := d[x] - {y}]
      else if z in d[x][y] then d[x := d[x][y := d[x][y] - {z}]]
      else d
  }

  /** The flat content after a write is the flat write of the old content. */
  lemma StoredFlatten(d: Stacks, p: Pos, mat: Option<Material>)
    ensures Flatten(Stored(d, p, mat)) == Written(Flatten(d), p, mat)
  {
    var e := Stored(d, p, mat);
    var w := Written(Flatten(d), p, mat);
    forall q ensures Lookup(e, q) == Get(w, q) {
      FlattenLookup(d, q);
    }
    FlattenAgree(e, w);
  }

  /**
   * Erasing prunes lazily: after a voxel is set and erased, an empty y-stack
   * remains; the next erase at that position removes it, the one after that
   * removes the x-stack. No lookup sees any of these empty stacks.
   */
  lemma {:induction false} ErasePrunesLazily(v: Material)
    ensures
      var p := (0, 0, 0);
      var d1 := Stored(map[], p, Some(v));
      var d2 := Stored(d1, p, None);
      var d3 := Stored(d2, p, None);
      var d4 := Stored(d3, p, None);
      && d1 == map[0 := map[0 := map[0 := v]]]
      && d2 == map[0 := map[0 := map[]]]
      && d3 == map[0 := map[]]
      && d4 == map[]
      && (forall q :: Lookup(d2, q) == Lookup(d3, q) == Lookup(d4, q) == None)
  {
    var p := (0, 0, 0);
    var d1 := Stored(map[], p, Some(v));
    assert d1 == map[0 := map[0 := map[0 := v]]];
    var d2 := Stored(d1, p, None);
    assert d2 == d1[0 := d1[0][0 := d1[0][0] - {0}]];
    EmptyMap(d1[0][0] - {0});
    assert d1[0][0] - {0} == map[];
    assert d1[0][0 := map[]] == map[0 := map[]];
    assert d2 == map[0 := map[0 := map[]]];
    var d3 := Stored(d2, p, None);
    EmptyMap(d2[0] - {0});
    assert d3 == map[0 := map[]];
    var d4 := Stored(d3, p, None);
    EmptyMap(d4);
    assert d4 == map[];
  }

  /** The positions listed by an item list. */
  function KeysOf(items: seq<(Pos, Material)>): set<Pos> {
    set i | 0 <= i < |items| :: items[i].0
  }

  /** No position is listed twice. */
  predicate Distinct(items: seq<(Pos, Material)>) {
    forall i, j | 0 <= i < j < |items| :: items[i].0 != items[j].0
  }

  /** `items` lists every voxel stored in `d` exactly once, with its material. */
  ghost predicate Enumerates(items: seq<(Pos, Material)>, d: Stacks) {
    && (forall i | 0 <= i < |items| :: Lookup(d, items[i].0) == Some(items[i].1))
    && Distinct(items)
    && (forall p | Lookup(d, p).Some? :: p in KeysOf(items))
  }

  lemma KeysOfAppend(items: seq<(Pos, Material)>, e: (Pos, Material))
    ensures KeysOf(items + [e]) == KeysOf(items) + {e.0}
  {
    var s := items + [e];
    forall q | q in KeysOf(s) ensures q in KeysOf(items) + {e.0} {
      var i :| 0 <= i < |s| && s[i].0 == q;
      if i < |items| {
        assert items[i].0 == q;
      }
    }
    forall q | q in KeysOf(items) ensures q in KeysOf(s) {
      var i :| 0 <= i < |items| && items[i].0 == q;
      assert s[i].0 == q;
    }
    assert s[|items|].0 == e.0;
  }

  /** A non-empty enumeration starts with a stored voxel. */
  lemma EnumeratesHead(items: seq<(Pos, Material)>, d: Stacks)
    requires Enumerates(items, d)
    ensures |items| > 0 ==> Lookup(d, items[0].0).Some?
  {
  }

  /** One animation frame of a sprite: a sparse store of materials. */
  class Frame {
    var data: Stacks

    /** Every stored voxel, keyed by its integer position. */
    function Voxels(): map<Pos, Material>
      reads this
    {
      Flatten(data)
    }

    constructor ()
      ensures data == map[]
    {
      data := map[];
    }

    method Clear()
      modifies this
      ensures data == map[]
    {
      data := map[];
    }

    /** The material stored at the truncated position, None if empty. */
    function GetVoxel(pos: Vec3): (r: Option<Material>)
      reads this
      ensures r == Get(Voxels(), Key(pos))
    {
      FlattenLookup(data, Key(pos));
      Lookup(data, Key(pos))
    }

    /** Stores `mat` at the truncated position, or erases it when `mat` is None. */
    method SetVoxel(pos: Vec3, mat: Option<Material>)
      modifies this
      ensures data == Stored(old(data), Key(pos), mat)
    {
      var x := Trunc(pos.x);
      var y := Trunc(pos.y);
      var z := Trunc(pos.z);
      ghost var d := data;
      if mat.Some? {
        ghost var dx := if x in data then data[x] else map[];
        ghost var dy := if y in dx then dx[y] else map[];
        if x !in data {
          data := data[x := map[]];
        }
        assert data[x] == dx;
        if y !in data[x] {
          data := data[x := data[x][y := map[]]];
        }
        assert data[x][y] == dy;
        data := data[x := data[x][y := data[x][y][z := mat.value]]];
        assert data[x] == dx[y := dy[z := mat.value]];
      } else if x in data {
        if data[x] == map[] {
          data := data - {x};
        } else if y in data[x] {
          if data[x][y] == map[] {
            data := data[x := data[x] - {y}];
          } else if z in data[x][y] {
            data := data[x := data[x][y := data[x][y] - {z}]];
          }
        }
      }
      assert data == Stored(d, (x, y, z), mat);
    }

    /** Lists every stored voxel with its position, each exactly once. */
    method GetVoxels() returns (items: seq<(Pos, Material)>)
      ensures Enumerates(items, data)
    {
      items := [];
      var xs := data.Keys;
      while xs != {}
        invariant xs <= data.Keys
        invariant forall i | 0 <= i < |items| ::
          Lookup(data, items[i].0) == Some(items[i].1) && items[i].0.0 !in xs
        invariant Distinct(items)
        invariant forall p | Lookup(data, p).Some? && p.0 !in xs :: p in KeysOf(items)
        decreases |xs|
      {
        SetMember(xs);
        var x :| x in xs;
        var ys := data[x].Keys;
        while ys != {}
          invariant ys <= data[x].Keys
          invariant forall i | 0 <= i < |items| ::
            Lookup(data, items[i].0) == Some(items[i].1) &&
            (items[i].0.0 !in xs || (items[i].0.0 == x && items[i].0.1 !in ys))
          invariant Distinct(items)
          invariant forall p | Lookup(data, p).Some? && (p.0 !in xs || (p.0 == x && p.1 !in ys)) ::
            p in KeysOf(items)
          decreases |ys|
        {
          SetMember(ys);
          var y :| y in ys;
          var zs := data[x][y].Keys;
          while zs != {}
            invariant zs <= data[x][y].Keys
            invariant forall i | 0 <= i < |items| ::
              Lookup(data, items[i].0) == Some(items[i].1) &&
              (items[i].0.0 !in xs || (items[i].0.0 == x &&
                (items[i].0.1 !in ys || (items[i].0.1 == y && items[i].0.2 !in zs))))
            invariant Distinct(items)
            invariant forall p | Lookup(data, p).Some? &&
              (p.0 !in xs || (p.0 == x && (p.1 !in ys || (p.1 == y && p.2 !in zs)))) ::
              p in KeysOf(items)
            decreases |zs|
          {
            SetMember(zs);
            var z :| z in zs;
            KeysOfAppend(items, ((x, y, z), data[x][y][z]));
            items := items + [((x, y, z), data[x][y][z])];
            zs := zs - {z};
          }
          ys := ys - {y};
        }
        xs := xs - {x};
      }
    }
  }
}
