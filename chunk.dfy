/**
 * A chunk: a 32x32x32 block of voxels stored as one flat vector, its terrain
 * generation from a column height function, the entity markers it emits and
 * the status rules around meshing.
 */
module Chunks {
  import opened Settings

  // ---------------------------------------------------------------------
  // Voxel layout
  // ---------------------------------------------------------------------

  /** Position of voxel `(x, y, z)` in the flat voxel vector. */
  function Index(x: int, y: int, z: int): int {
    x + z * 32 + y * 1024
  }

  predicate InChunk(x: int, y: int, z: int) {
    0 <= x < 32 && 0 <= y < 32 && 0 <= z < 32
  }

  /** The local coordinates stored at a position of the flat vector. */
  function Coord(i: int): (c: Pos)
    requires 0 <= i < 32768
    ensures InChunk(c.x, c.y, c.z) && Index(c.x, c.y, c.z) == i
  {
    var q := i / 32;
    Pos(i % 32, q / 32, q % 32)
  }

  /** Distinct voxels of the chunk have distinct positions in `[0, 32768)`. */
  lemma IndexInjective(x: int, y: int, z: int, x2: int, y2: int, z2: int)
    requires InChunk(x, y, z) && InChunk(x2, y2, z2)
    ensures 0 <= Index(x, y, z) < 32768
    ensures Index(x, y, z) == Index(x2, y2, z2) <==> x == x2 && y == y2 && z == z2
  {
  }

  /** `Coord` inverts the layout, so the layout is a bijection onto `[0, 32768)`. */
  lemma CoordOfIndex(x: int, y: int, z: int)
    requires InChunk(x, y, z)
    ensures 0 <= Index(x, y, z) < 32768 && Coord(Index(x, y, z)) == Pos(x, y, z)
  {
    var c := Coord(Index(x, y, z));
    IndexInjective(x, y, z, c.x, c.y, c.z);
  }

  /** A voxel vector of the right size. */
  predicate Full(s: seq<Voxel>) {
    |s| == 32768
  }

  /** The all-`EMPTY` vector a new chunk starts with. */
  function Blank(): (s: seq<Voxel>)
    ensures Full(s) && forall i :: 0 <= i < |s| ==> s[i] == EMPTY
  {
    seq(32768, _ => EMPTY)
  }

  /** `get_voxel`: the voxel at a flat position; an index outside the vector panics. */
  function Cell(s: seq<Voxel>, x: int, y: int, z: int): Voxel
    requires Full(s) && 0 <= Index(x, y, z) < 32768
  {
    s[Index(x, y, z)]
  }

  /** The vector after `set_voxel`: an in-range write replaces exactly that voxel,
    * an out-of-range one changes nothing. */
  function Put(s: seq<Voxel>, x: int, y: int, z: int, v: Voxel): (r: seq<Voxel>)
    requires Full(s)
    ensures Full(r)
    ensures !InChunk(x, y, z) ==> r == s
    ensures InChunk(x, y, z) ==> Cell(r, x, y, z) == v
    ensures forall x', y', z' :: InChunk(x', y', z') && !(x' == x && y' == y && z' == z) ==>
      Cell(r, x', y', z') == Cell(s, x', y', z')
  {
    if InChunk(x, y, z) then
      UpdateOthers(s, x, y, z, v);
      s[Index(x, y, z) := v]
    else s
  }

  lemma UpdateOthers(s: seq<Voxel>, x: int, y: int, z: int, v: Voxel)
    requires Full(s) && InChunk(x, y, z)
    ensures forall x', y', z' :: InChunk(x', y', z') && !(x' == x && y' == y && z' == z) ==>
      Cell(s[Index(x, y, z) := v], x', y', z') == Cell(s, x', y', z')
  {
    forall x', y', z' | InChunk(x', y', z') && !(x' == x && y' == y && z' == z)
      ensures Cell(s[Index(x, y, z) := v], x', y', z') == Cell(s, x', y', z')
    {
      IndexInjective(x, y, z, x', y', z');
    }
  }

  /** The chunk holding global voxel `g`: each coordinate divided by 32, rounded down. */
  function Owner(g: Pos): Pos {
    Pos(g.x / 32, g.y / 32, g.z / 32)
  }

  /** The local coordinates of global voxel `g` in its chunk: each coordinate's
    * `rem_euclid(32)`. */
  function Local(g: Pos): (l: Pos)
    ensures InChunk(l.x, l.y, l.z)
  {
    Pos(g.x % 32, g.y % 32, g.z % 32)
  }

  /** Every global voxel is `32 * chunk + local` for exactly one chunk and one
    * in-chunk local position, and `Owner`/`Local` find them. */
  lemma OwnerLocalUnique(g: Pos, p: Pos, l: Pos)
    requires InChunk(l.x, l.y, l.z)
    ensures g == Pos(p.x * 32 + l.x, p.y * 32 + l.y, p.z * 32 + l.z) <==> Owner(g) == p && Local(g) == l
  {
  }

  /** A `set_voxel` call: local coordinates and the voxel written. */
  datatype Write = Write(x: int, y: int, z: int, v: Voxel)

  /** Running `set_voxel` calls in order under `?`: the first out-of-range call
    * stops the sequence and reports failure; the earlier writes remain. */
  function RunPuts(s: seq<Voxel>, w: seq<Write>): (r: (seq<Voxel>, bool))
    requires Full(s)
    ensures Full(r.0)
    ensures r.1 <==> forall k :: 0 <= k < |w| ==> InChunk(w[k].x, w[k].y, w[k].z)
    decreases |w|
  {
    if w == [] then (s, true)
    else if !InChunk(w[0].x, w[0].y, w[0].z) then (s, false)
    else RunPuts(Put(s, w[0].x, w[0].y, w[0].z, w[0].v), w[1..])
  }

  /** A single write runs as one `set_voxel` call. */
  lemma RunPutsSingle(s: seq<Voxel>, a: Write)
    requires Full(s)
    ensures RunPuts(s, [a]) == (Put(s, a.x, a.y, a.z, a.v), InChunk(a.x, a.y, a.z))
  {
    assert [a][1..] == [];
  }

  // ---------------------------------------------------------------------
  // Terrain
  // ---------------------------------------------------------------------

  /** The voxel kind generated at local height `y` of a chunk whose global base height
    * is `cy`, in a column whose surface voxel is at global height `h - 1`. */
  function Band(cy: int, y: int, h: int): (v: Voxel)
    ensures v != EMPTY && v != WATER
  {
    var gy := cy + y;
    if cy >= 50 && y > 5 then SNOW
    else if 35 <= gy < 50 then COBBLESTONE
    else if 10 <= gy < 35 && gy == h - 1 then GRASS
    else if 7 <= gy < 10 then DIRT
    else SAND
  }

  /** The calls `generate_terrain` makes for local voxel `(x, y, z)`: sea-level sand first
    * stacks four water voxels above itself. */
  function TerrainWrites(x: int, y: int, z: int, cy: int, h: int): (w: seq<Write>)
    ensures |w| >= 1 && w[|w| - 1] == Write(x, y, z, Band(cy, y, h))
  {
    var v := Band(cy, y, h);
    if v == SAND && cy + y == 0 then
      [Write(x, y + 1, z, WATER), Write(x, y + 2, z, WATER), Write(x, y + 3, z, WATER), Write(x, y + 4, z, WATER), Write(x, y, z, v)]
    else
      [Write(x, y, z, v)]
  }

  /** Column heights below 1 count as 1. */
  function Clamp(h: int): (r: int)
    ensures r >= 1 && (h > 0 ==> r == h)
  {
    if h > 0 then h else 1
  }

  /** The local heights `[Lo, Hi)` of a column that lie in the chunk. */
  function Lo(cy: int): int {
    if -cy > 0 then -cy else 0
  }

  function Hi(cy: int, h: int): int {
    if h - cy < 32 then h - cy else 32
  }

  /** The clamped surface height of column `(x, z)` of the chunk at `pos`. */
  function ColumnHeight(height: (int, int) -> int, pos: Pos, x: int, z: int): int {
    Clamp(height(x + pos.x * 32, z + pos.z * 32))
  }

  /** A voxel at local height `y` after terrain generation, of a column with surface `h`
    * in the chunk whose base is `cy`: the band for heights inside `[Lo, Hi)`, water on
    * the four voxels above sea level in the sea-level chunk, otherwise what was there. */
  function ColumnCell(was: Voxel, cy: int, h: int, y: int): Voxel {
    if Lo(cy) <= y < Hi(cy, h) then Band(cy, y, h)
    else if cy == 0 && 1 <= y <= 4 then WATER
    else was
  }

  /** The same voxel when the heights `[Lo, yy)` of its column have been generated. */
  function PartialCell(was: Voxel, cy: int, h: int, y: int, yy: int): Voxel {
    if Lo(cy) <= y < yy then Band(cy, y, h)
    else if cy == 0 && Lo(cy) < yy && 1 <= y <= 4 then WATER
    else was
  }

  /** One `generate_terrain` call inside a chunk whose base is a multiple of 32 never
    * fails: it writes the band at `(x, y, z)`, water above it when `y` is sea level,
    * and nothing else. */
  lemma TerrainEffect(s: seq<Voxel>, x: int, y: int, z: int, p: int, h: int)
    requires Full(s) && InChunk(x, y, z)
    ensures var r := RunPuts(s, TerrainWrites(x, y, z, p * 32, h));
      && r.1
      && forall x', y', z' :: InChunk(x', y', z') ==>
        Cell(r.0, x', y', z') ==
          if x' == x && y' == y && z' == z then Band(p * 32, y, h)
          else if x' == x && z' == z && p == 0 && y == 0 && 1 <= y' <= 4 then WATER
          else Cell(s, x', y', z')
  {
    var cy := p * 32;
    var v := Band(cy, y, h);
    if v == SAND && cy + y == 0 {
      assert p == 0 && y == 0;
      var s1 := Put(s, x, 1, z, WATER);
      var s2 := Put(s1, x, 2, z, WATER);
      var s3 := Put(s2, x, 3, z, WATER);
      var s4 := Put(s3, x, 4, z, WATER);
      var w := TerrainWrites(x, y, z, cy, h);
      assert RunPuts(s, w) == RunPuts(s1, w[1..]) == RunPuts(s2, w[2..]);
      assert RunPuts(s2, w[2..]) == RunPuts(s3, w[3..]) == RunPuts(s4, w[4..]);
      assert RunPuts(s4, w[4..]) == RunPuts(Put(s4, x, y, z, v), []);
    } else {
      assert !(p == 0 && y == 0);
    }
  }

  // ---------------------------------------------------------------------
  // Entities
  // ---------------------------------------------------------------------

  /** A planted entity: global position and kind. */
  datatype Placed = Placed(x: int, y: int, z: int, kind: Entity)

  /** `(v as usize) % len` for an `i32` value: the cast is two's complement modulo 2^64. */
  function HashIndex(v: int, len: nat): (k: nat)
    requires len > 0
    ensures k < len
  {
    (v % 0x1_0000_0000_0000_0000) % len
  }

  /** Whether the hash entry for global column `(x, z)` is below 1. */
  predicate Planted(hash: seq<int>, x: int, z: int)
    requires |hash| > 0
  {
    hash[HashIndex(x * 3 + z * 17, |hash|)] < 1
  }

  /** `add_entity`: a grass voxel at global `(x, y, z)` gets a seed when the hash
    * entry for its column is below 1. */
  function AddEntity(x: int, y: int, z: int, v: Voxel, hash: seq<int>): (r: seq<Placed>)
    requires |hash| > 0
    ensures |r| <= 1
    ensures forall e :: e in r <==> e == Placed(x, y, z, SEED) && v == GRASS && Planted(hash, x, z)
  {
    if v == GRASS && Planted(hash, x, z) then [Placed(x, y, z, SEED)] else []
  }

  /** Whether local voxel `(x, y, z)` of the chunk at `pos` plants a seed. */
  predicate Seeds(s: seq<Voxel>, pos: Pos, hash: seq<int>, x: int, y: int, z: int)
    requires Full(s) && |hash| > 0 && InChunk(x, y, z)
  {
    Cell(s, x, y, z) == GRASS && Planted(hash, pos.x * 32 + x, pos.z * 32 + z)
  }

  /** The seed of local voxel `(x, y, z)` of the chunk at `pos`, at its global position. */
  function SeedAt(pos: Pos, x: int, y: int, z: int): Placed {
    Placed(pos.x * 32 + x, pos.y * 32 + y, pos.z * 32 + z, SEED)
  }

  // `generate_entities` visits x outermost, then y, then z, calling `add_entity` at the
  // global position `(cx + x, cy + y, cz + z)`, where `(cx, cy, cz)` is the chunk's
  // global origin. `Row` is what the first `m` visits of row `(x, y)` emit, `Layer` the
  // first `m` rows of layer `x`, `Layers` the first `m` layers.

  /** What the visit of local voxel `(x, y, z)` emits. */
  function Emit(s: seq<Voxel>, cx: int, cy: int, cz: int, hash: seq<int>, x: int, y: int, z: int): seq<Placed>
    requires Full(s) && |hash| > 0 && InChunk(x, y, z)
  {
    AddEntity(cx + x, cy + y, cz + z, Cell(s, x, y, z), hash)
  }

  function Row(s: seq<Voxel>, cx: int, cy: int, cz: int, hash: seq<int>, x: int, y: int, m: nat): seq<Placed>
    requires Full(s) && |hash| > 0 && 0 <= x < 32 && 0 <= y < 32 && m <= 32
  {
    if m == 0 then [] else Row(s, cx, cy, cz, hash, x, y, m - 1) + Emit(s, cx, cy, cz, hash, x, y, m - 1)
  }

  function Layer(s: seq<Voxel>, cx: int, cy: int, cz: int, hash: seq<int>, x: int, m: nat): seq<Placed>
    requires Full(s) && |hash| > 0 && 0 <= x < 32 && m <= 32
  {
    if m == 0 then [] else Layer(s, cx, cy, cz, hash, x, m - 1) + Row(s, cx, cy, cz, hash, x, m - 1, 32)
  }

  function Layers(s: seq<Voxel>, cx: int, cy: int, cz: int, hash: seq<int>, m: nat): seq<Placed>
    requires Full(s) && |hash| > 0 && m <= 32
  {
    if m == 0 then [] else Layers(s, cx, cy, cz, hash, m - 1) + Layer(s, cx, cy, cz, hash, m - 1, 32)
  }

  /** Everything `generate_entities` emits for the chunk at `pos`, in order. */
  function Entities(s: seq<Voxel>, pos: Pos, hash: seq<int>): seq<Placed>
    requires Full(s) && |hash| > 0
  {
    Layers(s, pos.x * 32, pos.y * 32, pos.z * 32, hash, 32)
  }

  /** `e` is the seed of a voxel, of the chunk with origin `(cx, cy, cz)`, that plants one. */
  predicate IsSeed(s: seq<Voxel>, cx: int, cy: int, cz: int, hash: seq<int>, e: Placed)
    requires Full(s) && |hash| > 0
  {
    e.kind == SEED && InChunk(e.x - cx, e.y - cy, e.z - cz)
      && Cell(s, e.x - cx, e.y - cy, e.z - cz) == GRASS && Planted(hash, e.x, e.z)
  }

  lemma {:induction false} RowMembers(s: seq<Voxel>, cx: int, cy: int, cz: int, hash: seq<int>,
                                      x: int, y: int, m: nat, e: Placed)
    requires Full(s) && |hash| > 0 && 0 <= x < 32 && 0 <= y < 32 && m <= 32
    ensures e in Row(s, cx, cy, cz, hash, x, y, m) <==>
      IsSeed(s, cx, cy, cz, hash, e) && e.x - cx == x && e.y - cy == y && e.z - cz < m
  {
    if m > 0 {
      RowMembers(s, cx, cy, cz, hash, x, y, m - 1, e);
    }
  }

  lemma {:induction false} LayerMembers(s: seq<Voxel>, cx: int, cy: int, cz: int, hash: seq<int>,
                                        x: int, m: nat, e: Placed)
    requires Full(s) && |hash| > 0 && 0 <= x < 32 && m <= 32
    ensures e in Layer(s, cx, cy, cz, hash, x, m) <==>
      IsSeed(s, cx, cy, cz, hash, e) && e.x - cx == x && e.y - cy < m
  {
    if m > 0 {
      LayerMembers(s, cx, cy, cz, hash, x, m - 1, e);
      RowMembers(s, cx, cy, cz, hash, x, m - 1, 32, e);
    }
  }

  lemma {:induction false} LayersMembers(s: seq<Voxel>, cx: int, cy: int, cz: int, hash: seq<int>,
                                         m: nat, e: Placed)
    requires Full(s) && |hash| > 0 && m <= 32
    ensures e in Layers(s, cx, cy, cz, hash, m) <==> IsSeed(s, cx, cy, cz, hash, e) && e.x - cx < m
  {
    if m > 0 {
      LayersMembers(s, cx, cy, cz, hash, m - 1, e);
      LayerMembers(s, cx, cy, cz, hash, m - 1, 32, e);
    }
  }

  /** `IsSeed` for the chunk at `pos` is `Seeds` at the local coordinates. */
  lemma IsSeedIff(s: seq<Voxel>, pos: Pos, hash: seq<int>, e: Placed)
    requires Full(s) && |hash| > 0
    ensures var x, y, z := e.x - pos.x * 32, e.y - pos.y * 32, e.z - pos.z * 32;
      IsSeed(s, pos.x * 32, pos.y * 32, pos.z * 32, hash, e) <==>
        InChunk(x, y, z) && Seeds(s, pos, hash, x, y, z) && e == SeedAt(pos, x, y, z)
  {
  }

  /** Everything emitted is the seed of a voxel of the chunk that plants one. */
  lemma EntitiesSound(s: seq<Voxel>, pos: Pos, hash: seq<int>, e: Placed)
    requires Full(s) && |hash| > 0 && e in Entities(s, pos, hash)
    ensures var x, y, z := e.x - pos.x * 32, e.y - pos.y * 32, e.z - pos.z * 32;
      InChunk(x, y, z) && Seeds(s, pos, hash, x, y, z) && e == SeedAt(pos, x, y, z)
  {
    LayersMembers(s, pos.x * 32, pos.y * 32, pos.z * 32, hash, 32, e);
    IsSeedIff(s, pos, hash, e);
  }

  /** Every voxel of the chunk that plants a seed has its seed emitted. */
  lemma EntitiesComplete(s: seq<Voxel>, pos: Pos, hash: seq<int>, x: int, y: int, z: int)
    requires Full(s) && |hash| > 0 && InChunk(x, y, z) && Seeds(s, pos, hash, x, y, z)
    ensures SeedAt(pos, x, y, z) in Entities(s, pos, hash)
  {
    var e := SeedAt(pos, x, y, z);
    assert e.x - pos.x * 32 == x && e.y - pos.y * 32 == y && e.z - pos.z * 32 == z;
    IsSeedIff(s, pos, hash, e);
    LayersMembers(s, pos.x * 32, pos.y * 32, pos.z * 32, hash, 32, e);
  }

  /** `generate_entities` emits a seed exactly for each seeding voxel of the chunk, at its
    * global position, and nothing else. */
  lemma EntitiesMembers(s: seq<Voxel>, pos: Pos, hash: seq<int>, e: Placed)
    requires Full(s) && |hash| > 0
    ensures e in Entities(s, pos, hash) <==>
      exists x, y, z :: InChunk(x, y, z) && Seeds(s, pos, hash, x, y, z) && e == SeedAt(pos, x, y, z)
  {
    if e in Entities(s, pos, hash) {
      EntitiesSound(s, pos, hash, e);
      var x, y, z := e.x - pos.x * 32, e.y - pos.y * 32, e.z - pos.z * 32;
      assert InChunk(x, y, z) && Seeds(s, pos, hash, x, y, z) && e == SeedAt(pos, x, y, z);
    }
    if exists x, y, z :: InChunk(x, y, z) && Seeds(s, pos, hash, x, y, z) && e == SeedAt(pos, x, y, z) {
      var x, y, z :| InChunk(x, y, z) && Seeds(s, pos, hash, x, y, z) && e == SeedAt(pos, x, y, z);
      EntitiesComplete(s, pos, hash, x, y, z);
    }
  }

  /** A voxel of the chunk while `build_voxels` is at column `(x, z)`, height `y`:
    * earlier columns are complete, the current one is complete below `y`. */
  function Stage(was: Voxel, pos: Pos, height: (int, int) -> int, x: int, z: int, y: int,
                 x': int, y': int, z': int): Voxel
  {
    var cy := pos.y * 32;
    if x' < x || (x' == x && z' < z) then ColumnCell(was, cy, ColumnHeight(height, pos, x', z'), y')
    else if x' == x && z' == z then PartialCell(was, cy, ColumnHeight(height, pos, x', z'), y', y)
    else was
  }

  /** Generating height `y` of column `(x, z)` advances the stage by one height. */
  lemma StageStep(was: Voxel, pos: Pos, height: (int, int) -> int, x: int, z: int, y: int,
                  x': int, y': int, z': int)
    requires Lo(pos.y * 32) <= y
    ensures Stage(was, pos, height, x, z, y + 1, x', y', z') ==
      var cy := pos.y * 32;
      var h := ColumnHeight(height, pos, x, z);
      if x' == x && y' == y && z' == z then Band(cy, y, h)
      else if x' == x && z' == z && pos.y == 0 && y == 0 && 1 <= y' <= 4 then WATER
      else Stage(was, pos, height, x, z, y, x', y', z')
  {
  }

  /** Once the heights of column `(x, z)` are exhausted the column is complete. */
  lemma StageColumnDone(was: Voxel, pos: Pos, height: (int, int) -> int, x: int, z: int, y: int,
                        x': int, y': int, z': int)
    requires var cy := pos.y * 32;
      var hi := Hi(cy, ColumnHeight(height, pos, x, z));
      y == if Lo(cy) < hi then hi else Lo(cy)
    ensures Stage(was, pos, height, x, z, y, x', y', z') ==
      Stage(was, pos, height, x, z + 1, Lo(pos.y * 32), x', y', z')
  {
  }

  // ---------------------------------------------------------------------
  // The chunk object
  // ---------------------------------------------------------------------

  class Chunk {
    var pos: Pos
    var voxels: seq<Voxel>
    var vertexCount: int
    var status: ChunkStatus

    ghost predicate Valid()
      reads this
    {
      Full(voxels)
    }

    /** `Chunk::new`: an all-empty chunk at chunk coordinates `(x, y, z)`. */
    constructor (x: int, y: int, z: int)
      ensures Valid()
      ensures pos == Pos(x, y, z) && voxels == Blank() && vertexCount == 0 && status == Empty
    {
      pos := Pos(x, y, z);
      voxels := Blank();
      vertexCount := 0;
      status := Empty;
    }

    /** `set_voxel`: the chunk becomes `Dirty` in every case; an in-range write stores
      * the voxel and succeeds, an out-of-range one changes no voxel and fails. */
    method SetVoxel(x: int, y: int, z: int, v: Voxel) returns (ok: bool)
      requires Valid()
      modifies this
      ensures Valid() && pos == old(pos) && vertexCount == old(vertexCount)
      ensures status == Dirty
      ensures ok == InChunk(x, y, z)
      ensures voxels == Put(old(voxels), x, y, z, v)
    {
      status := Dirty;
      if 0 <= x < 32 && 0 <= y < 32 && 0 <= z < 32 {
        voxels := voxels[Index(x, y, z) := v];
        ok := true;
      } else {
        ok := false;
      }
    }

    /** `generate_terrain` for local voxel `(x, y, z)` of a chunk with global base `cy`
      * and column surface `h`: its `set_voxel` calls run as `TerrainWrites` under `?`. */
    method GenerateTerrain(x: int, y: int, z: int, cy: int, h: int) returns (ok: bool)
      requires Valid()
      modifies this
      ensures Valid() && pos == old(pos) && vertexCount == old(vertexCount)
      ensures status == Dirty
      ensures (voxels, ok) == RunPuts(old(voxels), TerrainWrites(x, y, z, cy, h))
    {
      var gy := cy + y;
      var voxel :=
        if cy >= 50 && y > 5 then SNOW
        else if gy >= 35 && gy < 50 then COBBLESTONE
        else if gy >= 10 && gy < 35 && gy == h - 1 then GRASS
        else if gy >= 7 && gy < 10 then DIRT
        else SAND;
      ghost var w := TerrainWrites(x, y, z, cy, h);
      ghost var s := voxels;
      if voxel == SAND && gy == 0 {
        ok := SetVoxel(x, y + 1, z, WATER);
        if !ok { return; }
        assert RunPuts(s, w) == RunPuts(voxels, w[1..]);
        ok := SetVoxel(x, y + 2, z, WATER);
        if !ok { return; }
        assert RunPuts(s, w) == RunPuts(voxels, w[2..]);
        ok := SetVoxel(x, y + 3, z, WATER);
        if !ok { return; }
        assert RunPuts(s, w) == RunPuts(voxels, w[3..]);
        ok := SetVoxel(x, y + 4, z, WATER);
        if !ok { return; }
        assert RunPuts(s, w) == RunPuts(voxels, w[4..]);
        assert w[4..] == [Write(x, y, z, voxel)];
      }
      assert voxel == Band(cy, y, h);
      RunPutsSingle(voxels, Write(x, y, z, voxel));
      ok := SetVoxel(x, y, z, voxel);
    }

    /** `build_voxels`: every column of the chunk is generated from its surface height,
      * then the chunk is `Empty` iff it holds no voxel at all, `Dirty` otherwise. */
    method BuildVoxels(height: (int, int) -> int)
      requires Valid()
      modifies this
      ensures Valid() && pos == old(pos) && vertexCount == old(vertexCount)
      ensures forall x, y, z :: InChunk(x, y, z) ==>
        Cell(voxels, x, y, z) ==
          ColumnCell(Cell(old(voxels), x, y, z), pos.y * 32, ColumnHeight(height, pos, x, z), y)
      ensures status == if forall i :: 0 <= i < |voxels| ==> voxels[i] == EMPTY then Empty else Dirty
    {
      var cy := pos.y * 32;
      ghost var s0 := voxels;
      var x := 0;
      while x < 32
        invariant 0 <= x <= 32
        invariant Valid() && pos == old(pos) && vertexCount == old(vertexCount)
        invariant forall x', y', z' :: InChunk(x', y', z') ==>
          Cell(voxels, x', y', z') == Stage(Cell(s0, x', y', z'), pos, height, x, 0, Lo(cy), x', y', z')
      {
        var z := 0;
        while z < 32
          invariant 0 <= z <= 32
          invariant Valid() && pos == old(pos) && vertexCount == old(vertexCount)
          invariant forall x', y', z' :: InChunk(x', y', z') ==>
            Cell(voxels, x', y', z') == Stage(Cell(s0, x', y', z'), pos, height, x, z, Lo(cy), x', y', z')
        {
          var h := height(x + pos.x * 32, z + pos.z * 32);
          h := if h > 0 then h else 1;
          var hi := if h - cy < 32 then h - cy else 32;
          var y := if -cy > 0 then -cy else 0;
          while y < hi
            invariant h == ColumnHeight(height, pos, x, z) && hi == Hi(cy, h)
            invariant Lo(cy) <= y && (Lo(cy) < hi ==> y <= hi) && (hi <= Lo(cy) ==> y == Lo(cy))
            invariant Valid() && pos == old(pos) && vertexCount == old(vertexCount)
            invariant forall x', y', z' :: InChunk(x', y', z') ==>
              Cell(voxels, x', y', z') == Stage(Cell(s0, x', y', z'), pos, height, x, z, y, x', y', z')
          {
            ghost var before := voxels;
            TerrainEffect(before, x, y, z, pos.y, h);
            var _ := GenerateTerrain(x, y, z, cy, h);
            forall x', y', z' | InChunk(x', y', z')
              ensures Cell(voxels, x', y', z') == Stage(Cell(s0, x', y', z'), pos, height, x, z, y + 1, x', y', z')
            {
              StageStep(Cell(s0, x', y', z'), pos, height, x, z, y, x', y', z');
            }
            y := y + 1;
          }
          forall x', y', z' | InChunk(x', y', z')
            ensures Cell(voxels, x', y', z') == Stage(Cell(s0, x', y', z'), pos, height, x, z + 1, Lo(cy), x', y', z')
          {
            StageColumnDone(Cell(s0, x', y', z'), pos, height, x, z, y, x', y', z');
          }
          z := z + 1;
        }
        forall x', y', z' | InChunk(x', y', z')
          ensures Cell(voxels, x', y', z') == Stage(Cell(s0, x', y', z'), pos, height, x + 1, 0, Lo(cy), x', y', z')
        {
        }
        x := x + 1;
      }
      status := if forall i :: 0 <= i < |voxels| ==> voxels[i] == EMPTY then Empty else Dirty;
    }

    /** `generate_entities`: the seeds of the chunk's grass voxels, in visit order. */
    method GenerateEntities(hash: seq<int>) returns (entities: seq<Placed>)
      requires Valid() && |hash| > 0
      ensures entities == Entities(voxels, pos, hash)
    {
      entities := [];
      var cx, cy, cz := pos.x * 32, pos.y * 32, pos.z * 32;
      var x := 0;
      while x < 32
        invariant 0 <= x <= 32
        invariant entities == Layers(voxels, cx, cy, cz, hash, x)
      {
        var y := 0;
        while y < 32
          invariant 0 <= y <= 32
          invariant entities == Layers(voxels, cx, cy, cz, hash, x) + Layer(voxels, cx, cy, cz, hash, x, y)
        {
          var z := 0;
          while z < 32
            invariant 0 <= z <= 32
            invariant entities == Layers(voxels, cx, cy, cz, hash, x) + Layer(voxels, cx, cy, cz, hash, x, y)
              + Row(voxels, cx, cy, cz, hash, x, y, z)
          {
            var voxel := voxels[Index(x, y, z)];
            entities := entities + AddEntity(cx + x, cy + y, cz + z, voxel, hash);
            z := z + 1;
          }
          y := y + 1;
        }
        x := x + 1;
      }
    }

    /** The status part of `build_mesh`: a chunk with vertices is `Clean`, one without is `Empty`. */
    method BuildMesh(vertices: seq<nat>)
      modifies this
      ensures pos == old(pos) && voxels == old(voxels)
      ensures vertexCount == |vertices|
      ensures status == if |vertices| > 0 then Clean else Empty
    {
      vertexCount := |vertices|;
      status := if |vertices| > 0 then Clean else Empty;
    }
  }

  // ---------------------------------------------------------------------
  // Properties of terrain generation
  // ---------------------------------------------------------------------

  /** Chunks below the sea-level chunk are never filled: their voxels stay as they were. */
  lemma BelowGroundUnchanged(was: Voxel, p: int, h: int, y: int)
    requires p < 0 && 0 <= y < 32
    ensures ColumnCell(was, p * 32, h, y) == was
  {
  }

  /** A column of a fresh chunk stays empty at height `y` iff the column's surface lies
    * below the chunk and the chunk is not at sea level. */
  lemma FreshCellEmpty(cy: int, h: int, y: int)
    requires h >= 1 && 0 <= y < 32
    ensures ColumnCell(EMPTY, cy, h, y) == EMPTY <==>
      !(Lo(cy) <= y < Hi(cy, h)) && !(cy == 0 && 1 <= y <= 4)
  {
  }

  /** A fresh chunk generates to an all-empty one iff no column reaches into it. */
  lemma {:induction false} FreshChunkEmptyIff(pos: Pos, height: (int, int) -> int)
    ensures (forall x, y, z :: InChunk(x, y, z) ==>
              ColumnCell(EMPTY, pos.y * 32, ColumnHeight(height, pos, x, z), y) == EMPTY)
      <==> (forall x, z :: 0 <= x < 32 && 0 <= z < 32 ==>
              Hi(pos.y * 32, ColumnHeight(height, pos, x, z)) <= Lo(pos.y * 32))
  {
    var cy := pos.y * 32;
    if forall x, y, z :: InChunk(x, y, z) ==> ColumnCell(EMPTY, cy, ColumnHeight(height, pos, x, z), y) == EMPTY {
      forall x, z | 0 <= x < 32 && 0 <= z < 32
        ensures Hi(cy, ColumnHeight(height, pos, x, z)) <= Lo(cy)
      {
        var h := ColumnHeight(height, pos, x, z);
        assert Lo(cy) < Hi(cy, h) ==> InChunk(x, Lo(cy), z) && ColumnCell(EMPTY, cy, h, Lo(cy)) != EMPTY;
      }
    }
  }

  /** `World::chunk_build_task`: a new chunk at `(x, y, z)` generated from `height`.
    * It ends `Empty` or `Dirty`, never `Terrain`; `Empty` exactly when no column reaches
    * into it. */
  method ChunkBuildTask(x: int, y: int, z: int, height: (int, int) -> int) returns (c: Chunk)
    ensures fresh(c) && c.Valid() && c.pos == Pos(x, y, z)
    ensures c.status == Empty || c.status == Dirty
    ensures c.status == Empty <==>
      forall x', z' :: 0 <= x' < 32 && 0 <= z' < 32 ==>
        Hi(y * 32, ColumnHeight(height, c.pos, x', z')) <= Lo(y * 32)
  {
    c := new Chunk(x, y, z);
    c.status := Dirty;
    c.BuildVoxels(height);
    FreshChunkEmptyIff(c.pos, height);
    if forall i :: 0 <= i < |c.voxels| ==> c.voxels[i] == EMPTY {
      forall x', y', z' | InChunk(x', y', z')
        ensures ColumnCell(EMPTY, y * 32, ColumnHeight(height, c.pos, x', z'), y') == EMPTY
      {
        assert Cell(c.voxels, x', y', z') == EMPTY;
      }
    } else {
      var i :| 0 <= i < |c.voxels| && c.voxels[i] != EMPTY;
      var p := Coord(i);
      assert Cell(c.voxels, p.x, p.y, p.z) != EMPTY;
    }
  }
}
