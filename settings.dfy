/**
 * Engine-wide constants and the small value types shared by the mesher and
 * the world: voxel kinds, the entity kind, chunk statuses, positions and the
 * usual optional value.
 */
module Settings {

  /** Edge length of a chunk, in voxels. */
  const CHUNK_SIZE: int := 32
  /** `CHUNK_SIZE * CHUNK_SIZE` */
  const CHUNK_AREA: int := 1024
  /** `CHUNK_AREA * CHUNK_SIZE` */
  const CHUNK_VOL: int := 32768

  /** A voxel kind. Its numeric id is what the packed vertex carries. */
  datatype Voxel = EMPTY | GRASS | SAND | WATER | SNOW | COBBLESTONE | DIRT | WOOD | LEAF

  /** The `repr(u8)` discriminant of a voxel kind: `EMPTY` is 0, every kind fits 4 bits. */
  function VoxelId(v: Voxel): (id: nat)
    ensures id < 16
    ensures id == 0 <==> v == EMPTY
  {
    match v
    case EMPTY => 0
    case GRASS => 1
    case SAND => 2
    case WATER => 3
    case SNOW => 4
    case COBBLESTONE => 5
    case DIRT => 6
    case WOOD => 7
    case LEAF => 8
  }

  /** The voxel kind with a given id, if any. */
  function VoxelFromId(id: nat): (r: Option<Voxel>)
    ensures r.Some? ==> VoxelId(r.value) == id
  {
    if id == 0 then Some(EMPTY)
    else if id == 1 then Some(GRASS)
    else if id == 2 then Some(SAND)
    else if id == 3 then Some(WATER)
    else if id == 4 then Some(SNOW)
    else if id == 5 then Some(COBBLESTONE)
    else if id == 6 then Some(DIRT)
    else if id == 7 then Some(WOOD)
    else if id == 8 then Some(LEAF)
    else None
  }

  /** Distinct kinds have distinct ids, so a packed id identifies its kind. */
  lemma VoxelIdRoundTrip(v: Voxel)
    ensures VoxelFromId(VoxelId(v)) == Some(v)
  {
  }

  /** The only entity kind: a marker where a tree is planted. */
  datatype Entity = SEED

  /** Lifecycle of a chunk: no geometry, terrain pending, mesh pending, meshed. */
  datatype ChunkStatus = Empty | Terrain | Dirty | Clean

  /** An integer point or chunk coordinate. */
  datatype Pos = Pos(x: int, y: int, z: int)

  datatype Option<T> = None | Some(value: T)
}
