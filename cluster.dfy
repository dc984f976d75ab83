/**
 * The neighbour cluster a chunk is meshed against: read-only views of the chunk
 * itself and of its six face neighbours, each possibly absent, addressed in the
 * center chunk's local coordinates. The chunks are shared immutably while a
 * mesh is built, so the cluster holds their voxel vectors as values.
 */
module Clusters {
  import opened Settings
  import opened Chunks
  import opened Faces

  datatype Cluster = Cluster(
    center: Option<seq<Voxel>>,
    top: Option<seq<Voxel>>,
    bottom: Option<seq<Voxel>>,
    right: Option<seq<Voxel>>,
    left: Option<seq<Voxel>>,
    front: Option<seq<Voxel>>,
    back: Option<seq<Voxel>>)

  ghost predicate Present(o: Option<seq<Voxel>>) {
    o.Some? ==> Full(o.value)
  }

  /** Every chunk the cluster holds has a full voxel vector. */
  ghost predicate Valid(c: Cluster) {
    Present(c.center) && Present(c.top) && Present(c.bottom) && Present(c.right)
    && Present(c.left) && Present(c.front) && Present(c.back)
  }

  /** The neighbour across face `f`. */
  function Part(c: Cluster, f: Face): Option<seq<Voxel>> {
    match f
    case Top => c.top
    case Bottom => c.bottom
    case Right => c.right
    case Left => c.left
    case Front => c.front
    case Back => c.back
  }

  /** A voxel of a possibly absent chunk; an absent chunk reads as `EMPTY`. */
  function Read(o: Option<seq<Voxel>>, x: int, y: int, z: int): Voxel
    requires Present(o) && InChunk(x, y, z)
  {
    if o.Some? then Cell(o.value, x, y, z) else EMPTY
  }

  /** The chunk position across face `f` of `p`. */
  function Neighbour(p: Pos, f: Face): Pos {
    var d := Offset(f);
    Pos(p.x + d.0, p.y + d.1, p.z + d.2)
  }

  function Lookup(world: map<Pos, seq<Voxel>>, p: Pos): Option<seq<Voxel>> {
    if p in world then Some(world[p]) else None
  }

  /** `ChunkCluster::new` over the world's chunk map: it fails (the source panics)
    * exactly when the center chunk is missing; each neighbour is taken when present. */
  function New(world: map<Pos, seq<Voxel>>, x: int, y: int, z: int): (r: Option<Cluster>)
    ensures r.Some? <==> Pos(x, y, z) in world
    ensures r.Some? ==> r.value.center == Some(world[Pos(x, y, z)])
    ensures r.Some? ==> forall f: Face :: Part(r.value, f) == Lookup(world, Neighbour(Pos(x, y, z), f))
    ensures r.Some? && (forall p :: p in world ==> Full(world[p])) ==> Valid(r.value)
  {
    if Pos(x, y, z) !in world then None
    else
      Some(Cluster(
        Some(world[Pos(x, y, z)]),
        Lookup(world, Pos(x, y + 1, z)),
        Lookup(world, Pos(x, y - 1, z)),
        Lookup(world, Pos(x + 1, y, z)),
        Lookup(world, Pos(x - 1, y, z)),
        Lookup(world, Pos(x, y, z + 1)),
        Lookup(world, Pos(x, y, z - 1))))
  }

  /** `ChunkCluster::get_voxel`: the chunk is chosen by the `div_euclid(32)` of each
    * local coordinate and read at their `rem_euclid(32)`; only the center and the six
    * face neighbours are reachable, anything else is `EMPTY`. */
  function GetVoxel(c: Cluster, x: int, y: int, z: int): Voxel
    requires Valid(c)
  {
    var qx, qy, qz := x / 32, y / 32, z / 32;
    var part :=
      if qx == 0 && qy == 0 && qz == 0 then c.center
      else if qx == 0 && qy == 1 && qz == 0 then c.top
      else if qx == 0 && qy == -1 && qz == 0 then c.bottom
      else if qx == 1 && qy == 0 && qz == 0 then c.right
      else if qx == -1 && qy == 0 && qz == 0 then c.left
      else if qx == 0 && qy == 0 && qz == 1 then c.front
      else if qx == 0 && qy == 0 && qz == -1 then c.back
      else None;
    Read(part, x % 32, y % 32, z % 32)
  }

  /** A coordinate inside the chunk reads the center chunk. */
  lemma GetVoxelCenter(c: Cluster, x: int, y: int, z: int)
    requires Valid(c) && InChunk(x, y, z)
    ensures GetVoxel(c, x, y, z) == Read(c.center, x, y, z)
  {
  }

  /** A coordinate one chunk across face `f` reads that neighbour at the coordinate
    * shifted back into the chunk. */
  lemma GetVoxelNeighbour(c: Cluster, f: Face, x: int, y: int, z: int)
    requires Valid(c) && InChunk(x, y, z)
    ensures var d := Offset(f);
      GetVoxel(c, x + 32 * d.0, y + 32 * d.1, z + 32 * d.2) == Read(Part(c, f), x, y, z)
  {
  }

  /** A coordinate outside the center and its six face neighbours (a diagonal
    * neighbour, or farther) reads as `EMPTY`. */
  lemma GetVoxelElsewhere(c: Cluster, x: int, y: int, z: int)
    requires Valid(c) && !InChunk(x, y, z)
    requires forall f: Face :: !InChunk(x - 32 * Offset(f).0, y - 32 * Offset(f).1, z - 32 * Offset(f).2)
    ensures GetVoxel(c, x, y, z) == EMPTY
  {
    var qx, qy, qz := x / 32, y / 32, z / 32;
    assert !InChunk(x - 32 * Offset(Top).0, y - 32 * Offset(Top).1, z - 32 * Offset(Top).2);
    assert !InChunk(x - 32 * Offset(Bottom).0, y - 32 * Offset(Bottom).1, z - 32 * Offset(Bottom).2);
    assert !InChunk(x - 32 * Offset(Right).0, y - 32 * Offset(Right).1, z - 32 * Offset(Right).2);
    assert !InChunk(x - 32 * Offset(Left).0, y - 32 * Offset(Left).1, z - 32 * Offset(Left).2);
    assert !InChunk(x - 32 * Offset(Front).0, y - 32 * Offset(Front).1, z - 32 * Offset(Front).2);
    assert !InChunk(x - 32 * Offset(Back).0, y - 32 * Offset(Back).1, z - 32 * Offset(Back).2);
  }

  /** `is_solid`: inside the chunk, a voxel is solid iff the center chunk holds a
    * non-`EMPTY` voxel there. */
  function IsSolid(c: Cluster, x: int, y: int, z: int): (b: bool)
    requires Valid(c)
    ensures InChunk(x, y, z) ==> (b <==> Read(c.center, x, y, z) != EMPTY)
  {
    GetVoxel(c, x, y, z) != EMPTY
  }

  /** `is_face_visible`: the voxel across face `f` is `EMPTY`. */
  function IsFaceVisible(c: Cluster, x: int, y: int, z: int, f: Face): bool
    requires Valid(c)
  {
    var d := Offset(f);
    GetVoxel(c, x + d.0, y + d.1, z + d.2) == EMPTY
  }

  /** A face of an in-chunk voxel whose neighbour is also in the chunk is visible iff
    * the center chunk is `EMPTY` there. */
  lemma FaceVisibleInside(c: Cluster, x: int, y: int, z: int, f: Face)
    requires Valid(c) && InChunk(x, y, z)
    requires InChunk(x + Offset(f).0, y + Offset(f).1, z + Offset(f).2)
    ensures IsFaceVisible(c, x, y, z, f) <==>
      Read(c.center, x + Offset(f).0, y + Offset(f).1, z + Offset(f).2) == EMPTY
  {
    var d := Offset(f);
    GetVoxelCenter(c, x + d.0, y + d.1, z + d.2);
  }

  /** A face of an in-chunk voxel on the chunk's boundary is visible iff the neighbour
    * across `f` is absent or `EMPTY` at the position wrapped around to the opposite
    * side of that chunk. */
  lemma FaceVisibleAcross(c: Cluster, x: int, y: int, z: int, f: Face)
    requires Valid(c) && InChunk(x, y, z)
    requires !InChunk(x + Offset(f).0, y + Offset(f).1, z + Offset(f).2)
    ensures var d := Offset(f);
      InChunk(x + d.0 - 32 * d.0, y + d.1 - 32 * d.1, z + d.2 - 32 * d.2)
      && (IsFaceVisible(c, x, y, z, f) <==>
          Read(Part(c, f), x + d.0 - 32 * d.0, y + d.1 - 32 * d.1, z + d.2 - 32 * d.2) == EMPTY)
  {
    var d := Offset(f);
    var l := Pos(x + d.0 - 32 * d.0, y + d.1 - 32 * d.1, z + d.2 - 32 * d.2);
    assert InChunk(l.x, l.y, l.z) by {
      match f
      case Top =>
      case Bottom =>
      case Right =>
      case Left =>
      case Front =>
      case Back =>
    }
    GetVoxelNeighbour(c, f, l.x, l.y, l.z);
  }

  /** What the world holds at global voxel `g`: the owning chunk's voxel at the local
    * position, `EMPTY` when that chunk is absent. */
  function WorldVoxel(world: map<Pos, seq<Voxel>>, g: Pos): Voxel
    requires forall p :: p in world ==> Full(world[p])
  {
    var l := Local(g);
    Read(Lookup(world, Owner(g)), l.x, l.y, l.z)
  }

  /** The cluster built for chunk `p` agrees with the world on the center chunk and on
    * the six face neighbours: local coordinate `(x, y, z)` reads global voxel
    * `32 * p + (x, y, z)`. */
  lemma NewAgreesWithWorld(world: map<Pos, seq<Voxel>>, p: Pos, x: int, y: int, z: int)
    requires forall q :: q in world ==> Full(world[q])
    requires p in world
    requires InChunk(x, y, z) || exists f: Face :: InChunk(x - 32 * Offset(f).0, y - 32 * Offset(f).1, z - 32 * Offset(f).2)
    ensures var c := New(world, p.x, p.y, p.z).value;
      GetVoxel(c, x, y, z) == WorldVoxel(world, Pos(p.x * 32 + x, p.y * 32 + y, p.z * 32 + z))
  {
    var c := New(world, p.x, p.y, p.z).value;
    var g := Pos(p.x * 32 + x, p.y * 32 + y, p.z * 32 + z);
    if InChunk(x, y, z) {
      GetVoxelCenter(c, x, y, z);
      OwnerLocalUnique(g, p, Pos(x, y, z));
    } else {
      var f: Face :| InChunk(x - 32 * Offset(f).0, y - 32 * Offset(f).1, z - 32 * Offset(f).2);
      var d := Offset(f);
      NeighbourAgrees(world, p, f, x - 32 * d.0, y - 32 * d.1, z - 32 * d.2);
    }
  }

  lemma NeighbourAgrees(world: map<Pos, seq<Voxel>>, p: Pos, f: Face, x: int, y: int, z: int)
    requires forall q :: q in world ==> Full(world[q])
    requires p in world && InChunk(x, y, z)
    ensures var c := New(world, p.x, p.y, p.z).value;
      var d := Offset(f);
      GetVoxel(c, x + 32 * d.0, y + 32 * d.1, z + 32 * d.2)
        == WorldVoxel(world, Pos(p.x * 32 + x + 32 * d.0, p.y * 32 + y + 32 * d.1, p.z * 32 + z + 32 * d.2))
  {
    var c := New(world, p.x, p.y, p.z).value;
    var d := Offset(f);
    var n := Neighbour(p, f);
    GetVoxelNeighbour(c, f, x, y, z);
    var g := Pos(p.x * 32 + x + 32 * d.0, p.y * 32 + y + 32 * d.1, p.z * 32 + z + 32 * d.2);
    assert g == Pos(n.x * 32 + x, n.y * 32 + y, n.z * 32 + z);
    OwnerLocalUnique(g, n, Pos(x, y, z));
  }
}
