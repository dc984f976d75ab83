# Voxel chunk meshing, world bookkeeping and renderer selection rules

This project is a Dafny model of the core of a Rust voxel engine, with proofs of its properties.

A world is a map from chunk positions to chunks. A chunk is a 32 x 32 x 32 block of voxels held as one flat vector.

**Chunk generation.**
- A chunk is generated column by column from a surface-height function, in elevation bands.
- Water is stacked on sea-level sand.
- Grass voxels chosen by a hash table get seed markers, and a seed grows into a tree.

**Meshing.** The engine meshes a chunk against its six face neighbours:
- It builds per-axis 64-bit column masks of the voxels that pass a condition.
- It culls the masks to exposed faces.
- It sorts the exposed faces into 32 x 32 planes by face, voxel kind and depth.
- A greedy mesher turns each plane into disjoint quads, and each quad into six packed 32-bit vertices.

**Around the player.** The world lists the chunks that still need to be built, generated or meshed. It uses the render range around the player and the shell just beyond it.

**Renderer side.** A vertex-buffer layout is sized, and a handful of Vulkan selection rules pick:
- the physical device;
- its queue families;
- the memory type;
- the depth format;
- the swapchain's format, present mode, extent, image count and sharing mode.

## Layout

**Modules:**
- `Settings` (settings.dfy): constants, voxel kinds with their ids, chunk statuses and positions.
- `Words` (words.dfy): machine words. A `u32` or `u64` is represented by the set of its one-bit positions, and each bit operator the mesher applies has its effect on positions.
- `Faces` (faces.dfy): the six faces, their ids, offsets, iteration order and unit-quad corner tables.
- `Chunks` (chunk.dfy): the voxel layout, the `Chunk` class, terrain, entities and the status rules.
- `Clusters` (cluster.dfy): the neighbour cluster a chunk is meshed against.
- `Masks` (masks.dfy): `build_masks`, working in place on an array of 3072 column words.
- `Greedy` (greedy.dfy): `greedy_mesh_plane`, working in place on an array of 32 plane words.
- `Packing` (packing.dfy): `compress_data` and the vertex shader's `unpack_data`.
- `Mesh` (mesh.dfy): culling, sorting into planes, the two meshing passes and `get_mesh`.
- `Ranges` (ranges.dfy): `render_range`, `border_range` and `_outer_border_range`.
- `Worlds` (world.dfy): the `World` class over its chunk map, `set_voxel`/`get_voxel`, trees, `decorate` and `promote_chunks`.
- `Renderer` (renderer.dfy): buffer element types, `BufferLayout` and `VertexBuffer`.
- `VkPhysicalDevice`, `VkImage`, `VkSwapchain` (vk_*.dfy): the Vulkan selection rules.

**How the model is written:**
- Code that changes state step by step is written imperatively, with loop invariants:
  - `Chunk`, `World` and `BufferLayout` are classes.
  - The mask and plane buffers are arrays.
  - HashMap iteration is a choice (`:|`) over the keys still to visit, so mesh properties hold whatever order is chosen.
- Each method is proved against specification functions, such as `Put`, `RunPuts`, `Store`, `Run`, `Entities`, `Pick` and `PlaneVertices`, and lemmas state what the source promises about those functions.

**Inputs.** Driver queries, the noise height function and the hash table are parameters of the model:
- Vulkan device types, queue-family flags, memory-type flags, format features and surface capabilities are inputs.
- The surface height is a function `(int, int) -> int`.
- `math::HASH` is a non-empty `seq<int>`.

## Model

| member | source | states |
|---|---|---|
| Settings.VoxelId | src/settings.rs:24-27 | every voxel kind's id fits 4 bits and only `EMPTY` has id 0 |
| Settings.VoxelFromId | src/settings.rs:24-27 | a decoded id, when it names a kind, names the kind with that id |
| Settings.VoxelIdRoundTrip | src/settings.rs:24-27 | decoding a kind's id gives the kind back, so the packed id identifies the voxel |
| Words.Range | src/chunk.rs:361 | the mask word of bits `lo .. hi-1`: exactly those positions, and it fits `hi` bits |
| Words.Not | src/chunk.rs:363 | `!w` at a width holds exactly the positions below the width that `w` lacks |
| Words.Shl | src/chunk.rs:298 | `w << s` drops bits pushed past the width; bit `j` is set iff `j - s` was set and `j` is below the width |
| Words.Shr | src/chunk.rs:360 | `w >> s` has bit `j` iff `w` has bit `j + s` |
| Words.TrailingZerosFrom | src/chunk.rs:358 | the least set position at or above `k`, or the width when there is none |
| Words.TrailingZeros | src/chunk.rs:358 | `trailing_zeros`: the positions below the result are clear, and the result is set unless it equals the width |
| Words.TrailingOnes | src/chunk.rs:360 | `trailing_ones`: the positions below the result are set, and the result is clear unless it equals the width |
| Words.ClearLowest | src/chunk.rs:264 | `row & (row - 1)` on a non-zero word removes exactly its lowest set bit |
| Words.LowMask | src/chunk.rs:361 | `checked_shl(1, h).map_or(!0, n - 1)` is the low `h` bits, or all bits when the shift would overflow |
| Words.ZeroIff | src/chunk.rs:358-359 | a word is zero iff `trailing_zeros` equals its width, which ends the peeling loop |
| Faces.Id | src/world.rs:167-178 | every face id is below 6 |
| Faces.FromId | src/world.rs:167-178 | the face with a given id has that id |
| Faces.FromIdOfId | src/world.rs:167-178 | ids identify faces |
| Faces.Iter | src/world.rs:194-200 | `iter` lists all six faces, each at the position given by its id |
| Faces.Axis | src/world.rs:180-191 | each face is perpendicular to one of the three axes |
| Faces.OffsetIsUnitNormal | src/world.rs:180-191 | each offset is a unit vector along the face's axis, positive exactly for even ids, and ids `2k`, `2k+1` share an axis |
| Faces.Coords | src/world.rs:202-213 | each corner table has six corners, two triangles sharing a diagonal |
| Faces.CoordsOnFace | src/world.rs:202-213 | every corner of a face's table is a unit-cube corner on that face |
| Faces.WindsTop | src/world.rs:206 | both Top triangles wind outward: their right-hand normal is the Top offset |
| Faces.WindsBottom | src/world.rs:207 | both Bottom triangles wind outward |
| Faces.WindsRight | src/world.rs:208 | both Right triangles wind outward |
| Faces.WindsLeft | src/world.rs:209 | both Left triangles wind outward |
| Faces.WindsFront | src/world.rs:210 | both Front triangles wind outward |
| Faces.WindsBack | src/world.rs:211 | both Back triangles wind outward |
| Faces.CoordsWinding | src/world.rs:202-213 | every face's corner table winds outward |
| Chunks.Coord | src/chunk.rs:54-56 | every flat position in `[0, 32768)` is the layout index of some in-chunk voxel |
| Chunks.IndexInjective | src/chunk.rs:54-56 | `x + z*32 + y*1024` maps in-chunk voxels into `[0, 32768)`, and distinct voxels get distinct positions |
| Chunks.CoordOfIndex | src/chunk.rs:54-56 | `Coord` inverts the layout, so the layout is a bijection onto `[0, 32768)` |
| Chunks.Blank | src/chunk.rs:27 | a new chunk's vector has 32768 entries, all `EMPTY` |
| Chunks.Put | src/chunk.rs:54-67 | an in-range write changes only its own voxel, which `get_voxel` then reads back; an out-of-range write changes nothing |
| Chunks.UpdateOthers | src/chunk.rs:62 | updating one flat position leaves every other in-chunk voxel unchanged |
| Chunks.Local | src/world.rs:62-64 | `rem_euclid(32)` coordinates always lie inside the chunk |
| Chunks.OwnerLocalUnique | src/world.rs:59-64 | every global voxel is `32 * chunk + local` for exactly one chunk and one in-chunk position, and floor division with `rem_euclid` finds them |
| Chunks.RunPuts | src/chunk.rs:110-138 | a sequence of `set_voxel` calls under `?` succeeds iff every call is in range, and keeps the vector full |
| Chunks.RunPutsSingle | src/chunk.rs:136 | one write runs as one `set_voxel` |
| Chunks.Band | src/chunk.rs:116-122 | the band kind is never `EMPTY` or `WATER` |
| Chunks.TerrainWrites | src/chunk.rs:124-136 | the last write of a voxel's terrain calls is its band at the voxel itself |
| Chunks.Clamp | src/chunk.rs:95 | column heights below 1 count as 1, other heights are kept |
| Chunks.TerrainEffect | src/chunk.rs:110-138 | inside a chunk at a 32-aligned base, `generate_terrain` never fails; it writes the band, water on the four voxels above sea-level sand, and nothing else |
| Chunks.HashIndex | src/chunk.rs:162 | `(v as usize) % len` is an index into the hash table for every `i32` value, negative ones included |
| Chunks.AddEntity | src/chunk.rs:157-168 | a seed is emitted exactly for a grass voxel whose hash entry is below 1, and at most one |
| Chunks.RowMembers | src/chunk.rs:146-150 | the innermost loop emits exactly the seeds of its row's first `m` voxels |
| Chunks.LayerMembers | src/chunk.rs:145-151 | the middle loop emits exactly the seeds of its layer's first `m` rows |
| Chunks.LayersMembers | src/chunk.rs:144-152 | the outer loop emits exactly the seeds of the first `m` layers |
| Chunks.IsSeedIff | src/chunk.rs:146-150 | a seed at a global position is a seeding voxel at the local position |
| Chunks.EntitiesSound | src/chunk.rs:141-154 | everything `generate_entities` emits is the seed of a grass voxel of this chunk that passes the hash test |
| Chunks.EntitiesComplete | src/chunk.rs:141-154 | every such voxel has its seed emitted |
| Chunks.EntitiesMembers | src/chunk.rs:141-168 | the emitted seeds are exactly those of the seeding voxels, at their global positions |
| Chunks.StageStep | src/chunk.rs:96-99 | generating one more height of a column advances the loop state by exactly that voxel, plus water at sea level |
| Chunks.StageColumnDone | src/chunk.rs:96-98 | when the height range `[max(-cy,0), min(h-cy,32))` is used up, the column is complete |
| Chunks.Chunk.constructor | src/chunk.rs:19-32 | `Chunk::new`: all-empty voxels, no vertices, status `Empty`, at the given position |
| Chunks.Chunk.SetVoxel | src/chunk.rs:59-67 | the status becomes `Dirty` in every case; the result is `Ok` iff in range, and the voxels are `Put` of the old ones |
| Chunks.Chunk.GenerateTerrain | src/chunk.rs:110-138 | the voxels and the result are those of running the terrain calls under `?`, and the status is `Dirty` |
| Chunks.Chunk.BuildVoxels | src/chunk.rs:84-107 | each voxel is its column's band on the clamped height range, water above sea-level sand, and otherwise unchanged; the status is `Empty` iff every voxel is `EMPTY`, `Dirty` otherwise |
| Chunks.Chunk.GenerateEntities | src/chunk.rs:141-154 | the result is the list of seeds in visit order, x outermost, then y, then z |
| Chunks.Chunk.BuildMesh | src/chunk.rs:718-721 | the status becomes `Clean` with vertices and `Empty` without, and the vertex count is recorded |
| Chunks.BelowGroundUnchanged | src/chunk.rs:96-98 | chunks below the sea-level chunk are never filled |
| Chunks.FreshCellEmpty | src/chunk.rs:96-106 | a fresh chunk's voxel stays `EMPTY` iff it lies in neither the column's range nor the water above sea level |
| Chunks.FreshChunkEmptyIff | src/chunk.rs:96-106 | a fresh chunk generates to an all-empty one iff no column's range reaches into it |
| Chunks.ChunkBuildTask | src/world.rs:23-28 | a built chunk ends `Empty` or `Dirty`, never `Terrain`, and `Empty` exactly when no column reaches into it |
| Clusters.New | src/world.rs:231-243 | `ChunkCluster::new` fails iff the center chunk is missing; each neighbour is the world's chunk across that face, when present |
| Clusters.GetVoxelCenter | src/world.rs:246-270 | an in-chunk coordinate reads the center chunk |
| Clusters.GetVoxelNeighbour | src/world.rs:246-270 | a coordinate one chunk across a face reads that neighbour at its `rem_euclid` position, `EMPTY` when absent |
| Clusters.GetVoxelElsewhere | src/world.rs:246-270 | a diagonal or farther coordinate reads `EMPTY` |
| Clusters.IsSolid | src/world.rs:273-276 | inside the chunk, a voxel is solid iff the center chunk holds a non-empty voxel there |
| Clusters.FaceVisibleInside | src/world.rs:279-283 | with the neighbour inside the chunk, a face is visible iff the center chunk is empty there |
| Clusters.FaceVisibleAcross | src/world.rs:279-283 | on the chunk's boundary, a face is visible iff the neighbour chunk is absent or empty at the wrapped position |
| Clusters.NewAgreesWithWorld | src/world.rs:231-270 | the cluster built for a chunk reads, at a local coordinate in its reach, the world's voxel at the matching global position |
| Clusters.NeighbourAgrees | src/world.rs:231-270 | the same for the coordinates of one face neighbour |
| Masks.Mark | src/chunk.rs:191-197 | the three `\|=` of the first loop keep all 3072 columns |
| Masks.ColumnInjective | src/chunk.rs:194-196 | column indices `a + b*32` are distinct for distinct in-chunk pairs |
| Masks.VisitInjective | src/chunk.rs:190-192 | the visiting order numbers every voxel once |
| Masks.MarkAt | src/chunk.rs:193-197 | a voxel's three bits land in three different groups and touch no other column |
| Masks.MarkInterior0 | src/chunk.rs:194 | after a visit, the group-0 bits are exactly those of the voxels visited so far that pass the condition |
| Masks.MarkInterior1 | src/chunk.rs:195 | the same for group 1 |
| Masks.MarkInterior2 | src/chunk.rs:196 | the same for group 2 |
| Masks.MarkWithin | src/chunk.rs:193-197 | the first loop sets only bits 1 to 32 |
| Masks.ColInjective | src/chunk.rs:203-234 | column indices of the three groups are distinct and stay within their group |
| Masks.End | src/chunk.rs:203-234 | one boundary step keeps all 3072 columns |
| Masks.EndAt | src/chunk.rs:205-210 | one boundary step sets bits 0 and 33 of its own column only |
| Masks.EndStep | src/chunk.rs:203-212 | after a boundary step, the end bits of the columns done so far are exactly the condition on the cluster voxels before and after them |
| Masks.EndOther | src/chunk.rs:203-234 | a boundary loop leaves the end bits of the other groups alone |
| Masks.EndInterior | src/chunk.rs:203-234 | the boundary loops leave the interior bits alone and set nothing above bit 33 |
| Masks.NoEnds | src/chunk.rs:188-200 | before the boundary loops, no end bit is set |
| Masks.EndsSame | src/chunk.rs:203-234 | end bits of a group survive loops that do not touch that group |
| Masks.BoundaryLoop | src/chunk.rs:203-234 | a boundary loop sets the end bits of every column of its group from the cluster, changes no other group, and keeps the interior bits |
| Masks.InteriorComplete | src/chunk.rs:190-200 | after the first loop, bit `k+1` of each column is the condition on the voxel at `k` along it |
| Masks.EndsComplete | src/chunk.rs:203-234 | after the boundary loops, bits 0 and 33 are the condition on the cluster voxels at -1 and 32 |
| Masks.MarkVoxel | src/chunk.rs:193-197 | one visit of the first loop is `Mark` |
| Masks.MarkVoxels | src/chunk.rs:190-200 | the first loop sets exactly the interior bits of the voxels that pass the condition, and only bits 1 to 32 |
| Masks.BuildMasks | src/chunk.rs:184-237 | `build_masks`: interior bits are the condition on the chunk's voxels, end bits the condition on the cluster's voxels before and after each column, and no bit above 33 is set |
| Mesh.CullLeft | src/chunk.rs:299 | culled-left bit `k` is set iff mask bit `k+1` is set and `k+2` is clear, and the word fits 32 bits |
| Mesh.CullRight | src/chunk.rs:298 | culled-right bit `k` is set iff mask bit `k+1` is set and `k` is clear, and the word fits 32 bits |
| Mesh.Culled | src/chunk.rs:300-301 | every entry of the opaque culled array fits 32 bits |
| Mesh.CullMasks | src/chunk.rs:296-302 | the culling loop fills all 6144 entries, even ones culled left and odd ones culled right |
| Mesh.WaterCulled | src/chunk.rs:246-251 | every entry of the water culled array fits 32 bits |
| Mesh.CullWater | src/chunk.rs:246-251 | the water culling loop culls the first 1024 columns to the left into the even entries |
| Mesh.Row | src/chunk.rs:307-311 | the culled index a face reads is in range |
| Mesh.RowParts | src/chunk.rs:307-311 | a face reads the column of group `id >> 1`, culled left for even ids and right for odd ones |
| Mesh.AtInChunk | src/chunk.rs:316-320 | plane coordinates map to in-chunk voxels |
| Mesh.MaskBit | src/chunk.rs:184-237 | bit `k+1` of a mask column is the condition on the voxel at `k` along it, for `k` from -1 to 32 |
| Mesh.AlongAt | src/chunk.rs:316-320 | along a face's column, position `c` is the voxel at `At(f, a, b, c)`, and one step towards the face is the voxel across it |
| Mesh.ExposedAlong | src/chunk.rs:296-320 | a face is exposed iff the condition holds on its voxel and fails one step along the column towards it |
| Mesh.CulledExposed | src/chunk.rs:296-320 | a culled bit a face reads is set iff that face of that voxel is exposed |
| Mesh.EmptyPlane | src/chunk.rs:267 | a default plane has 32 zero columns |
| Mesh.AddLayer | src/chunk.rs:265-268 | `entry(c).or_default()[a] \|= 1 << b` adds depth `c` and leaves every other depth alone |
| Mesh.Add | src/chunk.rs:324-329 | filing under a voxel kind leaves the other kinds alone and adds the bit to that kind's layers |
| Mesh.PlacesUnique | src/chunk.rs:305-306 | the sweep visits each `(a, b)` once |
| Mesh.PassedStep | src/chunk.rs:313-329 | filing bit `c` moves exactly that hit into the hits passed |
| Mesh.AddBitOld | src/chunk.rs:329 | setting a bit in an existing plane adds exactly that bit |
| Mesh.AddBitNew | src/chunk.rs:327-329 | a fresh plane holds exactly the bit set in it |
| Mesh.LayerBitAt | src/chunk.rs:324-329 | after filing, a plane bit is set iff it is a hit passed so far |
| Mesh.LayerAdd | src/chunk.rs:324-329 | filing a hit keeps the layers exact |
| Mesh.LayerAddBits | src/chunk.rs:324-329 | after filing, the planes hold exactly the hits passed |
| Mesh.LayerAddSheets | src/chunk.rs:324-329 | after filing, every plane is a non-empty 32 x 32 plane at a depth inside the chunk |
| Mesh.LayerAddKeys | src/chunk.rs:324-329 | after filing, every hit passed has its plane |
| Mesh.LayerSkip | src/chunk.rs:324-329 | a bit filed under another voxel kind leaves these layers exact |
| Mesh.AddHit | src/chunk.rs:313-329 | filing the lowest bit under the voxel there keeps the face's planes exact, per voxel kind |
| Mesh.AddHitAt | src/chunk.rs:324-329 | the same, one voxel kind at a time |
| Mesh.LayerNone | src/chunk.rs:324-326 | a voxel kind without planes has no hits passed |
| Mesh.PassedRow | src/chunk.rs:306-311 | finishing one row is starting the next with all its bits to sort |
| Mesh.LayerNextRow | src/chunk.rs:306-311 | the layers stay exact across rows |
| Mesh.NextRow | src/chunk.rs:306-311 | the planes stay exact across rows |
| Mesh.BucketRow | src/chunk.rs:313-330 | the inner loop files every set bit of the row under its voxel kind and depth |
| Mesh.BucketLine | src/chunk.rs:306-331 | the sweep over `b` keeps the planes exact |
| Mesh.PassedAll | src/chunk.rs:305-332 | once every position is passed, the passed hits are all the hits |
| Mesh.LayersDone | src/chunk.rs:305-332 | at the end of the sweep, the layers hold exactly the hits |
| Mesh.BucketFace | src/chunk.rs:304-333 | the sweep for one face files exactly its exposed faces, by voxel kind and depth, into non-empty planes |
| Mesh.WaterRow | src/chunk.rs:261-269 | the water inner loop files every set bit of the top-face row under its depth |
| Mesh.WaterLine | src/chunk.rs:254-270 | the water sweep over `b` keeps the layers exact |
| Mesh.BucketWater | src/chunk.rs:253-271 | the water sweep files exactly the exposed top faces, by depth |
| Mesh.EmitAppend | src/chunk.rs:339 | `extend` per plane concatenates the blocks' vertices |
| Mesh.TagsAppend | src/chunk.rs:336-341 | the planes meshed by two lists are those of each |
| Mesh.TagsHas | src/chunk.rs:336-341 | a key is meshed iff some block carries it |
| Mesh.DistinctAppend | src/chunk.rs:336-341 | lists with disjoint keys concatenate without repeats |
| Mesh.SheetHasQuad | src/chunk.rs:357-372 | a plane with a set bit yields at least one quad |
| Mesh.MeshSheet | src/chunk.rs:338 | `greedy_mesh_plane` on a stored plane is an exact mesh of it |
| Mesh.LayersStep | src/chunk.rs:337-340 | meshing one more depth keeps the blocks exact and distinct |
| Mesh.EmitLayers | src/chunk.rs:337-340 | in any order, every stored depth is meshed exactly once, each block an exact mesh of its plane |
| Mesh.PlanesStep | src/chunk.rs:336-341 | meshing one more voxel kind keeps the blocks exact and distinct |
| Mesh.EmitPlanes | src/chunk.rs:336-341 | in any order, every stored plane of a face is meshed exactly once |
| Mesh.CullAll | src/chunk.rs:296-302 | the opaque culled words fit 32 bits |
| Mesh.WaterAll | src/chunk.rs:246-251 | the water culled words fit 32 bits |
| Mesh.FaceExact | src/chunk.rs:304-342 | each block of a face exactly meshes the hits of its plane, and every hit has its block |
| Mesh.LayerExact | src/chunk.rs:273-276 | a block of an exact layer is an exact mesh of its hits |
| Mesh.GreedyStep | src/chunk.rs:335-342 | meshing one more face keeps the emitted blocks exact, ordered by face and complete for the faces done |
| Mesh.GreedyOrder | src/chunk.rs:335 | blocks come in `Face::iter` order |
| Mesh.GreedyHits | src/chunk.rs:335-342 | every hit of the faces done so far has its block |
| Mesh.GetVerticesGreedy | src/chunk.rs:283-346 | `get_vertices_greedy`: blocks in face order, each the exact mesh of one plane, no plane twice, every exposed face in its plane's block |
| Mesh.GetVerticesWater | src/chunk.rs:240-280 | `get_vertices_water`: top-face `WATER` blocks, each the exact mesh of one depth's plane, no plane twice, every exposed top face covered |
| Mesh.HitShows | src/chunk.rs:296-329 | a bit the opaque pass files is exactly an exposed face of a voxel of its kind |
| Mesh.WaterHitShows | src/chunk.rs:246-269 | a bit the water pass files is exactly an exposed top face |
| Mesh.ExactDraws | src/chunk.rs:171-181 | an exact mesh of culled hits draws exactly the plane's exposed faces |
| Mesh.EmitDecodes | src/chunk.rs:338 | every emitted vertex decodes to the face and voxel id of the block it came from |
| Mesh.DrawnKind | src/chunk.rs:172-174 | an opaque block's voxel kind passes the opaque condition |
| Mesh.GetMesh | src/chunk.rs:171-181 | `get_mesh`: opaque vertices, then water vertices. Each block meshes exactly the exposed faces of one plane, no plane twice, every exposed face covered. Opaque words never carry `EMPTY` or `WATER`, and every water word decodes as a Top face of `WATER` |
| Mesh.OpaqueMeaning | src/chunk.rs:172-174 | the opaque pass draws exactly the exposed faces of non-empty, non-water voxels |
| Mesh.WaterMeaning | src/chunk.rs:176-178 | the water pass draws exactly the exposed top faces of water, and its words decode as such |
| Greedy.ClearColumns | src/chunk.rs:363-367 | clearing a mask from a range of columns changes exactly those columns |
| Greedy.ClearColumnsFirst | src/chunk.rs:363-367 | clearing the run's own column and then its extension is clearing the range |
| Greedy.ClearColumnsStep | src/chunk.rs:366 | extending by one column clears that column too |
| Greedy.CoveredAppend | src/chunk.rs:369 | a pushed quad covers its cells |
| Greedy.AddQuad | src/chunk.rs:363-369 | taking a quad of still-set bits and clearing them keeps the quads bounded, disjoint and exactly covering the cleared bits |
| Greedy.StartProgress | src/chunk.rs:356 | no quads and nothing cleared is a valid start |
| Greedy.ProgressDone | src/chunk.rs:357-372 | once the plane is clear, the quads cover exactly the bits it held |
| Greedy.RunHeight | src/chunk.rs:360 | `(w >> y).trailing_ones()` is the length of the maximal run of set bits from `y` |
| Greedy.RunMask | src/chunk.rs:361 | the run mask is the bits `y .. y+h-1` |
| Greedy.AndNot | src/chunk.rs:363 | `w & !m` is set difference |
| Greedy.RunAt | src/chunk.rs:360-361 | the run from the lowest set bit is maximal and its mask is exactly its bits |
| Greedy.ClearBits | src/chunk.rs:363 | `plane[i] &= !mask` changes only column `i` |
| Greedy.PeelRun | src/chunk.rs:360-369 | the quad is the maximal run, widened across the following columns that equal the run mask exactly, stopping at column 32; exactly its bits are cleared |
| Greedy.Widen | src/chunk.rs:364-368 | column `x + w` is absorbed only while the mask is non-zero, `x + w < 32` and the column equals the mask; absorbed columns are cleared |
| Greedy.ShrunkPlane | src/chunk.rs:363-366 | a plane with bits cleared still fits 32 bits |
| Greedy.PeelStep | src/chunk.rs:359-371 | one peel keeps the invariant, and the next lowest set bit lies strictly above the old one |
| Greedy.PeelColumn | src/chunk.rs:358-371 | a column is peeled until clear, and earlier columns stay clear |
| Greedy.PlaneQuads | src/chunk.rs:357-372 | every plane word is zero on return; the quads are bounded, pairwise disjoint and cover exactly the plane's set bits |
| Greedy.QuadPositions | src/chunk.rs:374-447 | six vertex positions per quad, all `u32` values |
| Greedy.QuadVertices | src/chunk.rs:374-447 | each of a quad's six vertices is `compress_data` of its position |
| Greedy.QuadPositionsCorners | src/chunk.rs:374-447 | vertex `i` of a quad is corner `i` of the face's corner table stretched over the quad |
| Greedy.QuadVertexDecodes | src/chunk.rs:374-447 | every vertex decodes to its quad corner, the face id and the voxel id |
| Greedy.UnitQuadCorners | src/chunk.rs:374-447 | for a unit quad at depth 0, the decoded corners are exactly `Face::coords` |
| Greedy.PlaneVertices | src/chunk.rs:374-447 | six vertices per quad |
| Greedy.PlaneVerticesAt | src/chunk.rs:374-447 | vertex `6k + i` is vertex `i` of quad `k` |
| Greedy.GreedyMeshPlane | src/chunk.rs:349-449 | `greedy_mesh_plane`: the plane is zeroed; the quads are bounded, disjoint and cover exactly its bits; six vertices per quad, in quad order |
| Packing.Pow2 | src/chunk.rs:697-711 | a power of two is positive |
| Packing.Shl32 | src/chunk.rs:701-709 | a `u32` left shift stays below 2^32 |
| Packing.OrDisjoint | src/chunk.rs:701-709 | or-ing a value below `2^k` into a multiple of `2^k` is addition |
| Packing.AndLowMask | src/shader_program.rs:161-165 | and-ing with `2^k - 1` keeps the low `k` bits |
| Packing.DivModUnique | src/shader_program.rs:161-165 | division with remainder is unique |
| Packing.Stage | src/chunk.rs:701-709 | every stage of `compress_data` stays below 2^32 |
| Packing.ShiftOr | src/chunk.rs:701-709 | a stage that pushes nothing out is `a * 2^k + b` |
| Packing.CompressFields | src/chunk.rs:697-711 | for coordinates below 64, `compress_data` is `face<<22 \| x<<16 \| y<<10 \| z<<4 \| voxel` and fits 25 bits |
| Packing.DigitsOf | src/shader_program.rs:156-167 | the five fields of such a word are its mixed-radix digits |
| Packing.UnpackDigits | src/shader_program.rs:156-167 | `unpack_data` recovers all five fields of such a word |
| Packing.UnpackCompress | src/shader_program.rs:156-167 | decoding a packed vertex gives back every field it was packed from |
| Ranges.Zs | src/util.rs:29-32 | the innermost range has `n` entries |
| Ranges.YsLength | src/util.rs:28-33 | the `y` range has `n * zn` entries |
| Ranges.XsLength | src/util.rs:27-34 | the `x` range has `n * yn * zn` entries |
| Ranges.YsMembers | src/util.rs:28-33 | the `y` range holds exactly its box |
| Ranges.XsMembers | src/util.rs:27-34 | the `x` range holds exactly its box |
| Ranges.UniqueAppend | src/util.rs:26-34 | duplicate-free lists with no common element concatenate without duplicates |
| Ranges.YsUnique | src/util.rs:28-33 | the `y` range lists each point once |
| Ranges.XsUnique | src/util.rs:27-34 | the `x` range lists each point once |
| Ranges.RenderRangeExact | src/util.rs:26-34 | `render_range` holds exactly the chunks within Chebyshev distance R, each once, `(2R+1)^3` of them |
| Ranges.Six | src/util.rs:41-46 | six points per pair of parameters |
| Ranges.Strip | src/util.rs:40-47 | six entries per step of the inner parameter |
| Ranges.Sheets | src/util.rs:39-47 | `6(2d+1)` entries per step of the outer parameter |
| Ranges.MulStep | src/util.rs:39-47 | the length arithmetic of one more step |
| Ranges.MulLe | src/util.rs:39-47 | earlier steps end before later ones start |
| Ranges.StripAt | src/util.rs:40-47 | entry `6k + i` of a strip is slot `i` of step `k` |
| Ranges.SheetsAt | src/util.rs:39-47 | entry `W k + j` of the shell is entry `j` of step `k` |
| Ranges.ShellAt | src/util.rs:38-48 | each parameter pair and slot sits at a known index of the shell |
| Ranges.SixMembers | src/util.rs:41-46 | every produced point is at Chebyshev distance exactly `d` |
| Ranges.StripSound | src/util.rs:40-47 | every point of a strip is at distance `d` |
| Ranges.SheetsSound | src/util.rs:38-48 | every point of the shell is at distance `d` |
| Ranges.FaceX | src/util.rs:42 | a point with its `x` offset at `d` is produced on an `x` face |
| Ranges.FaceY | src/util.rs:43 | a point with its `y` offset at `d` is produced on a `y` face |
| Ranges.FaceZ | src/util.rs:44 | a point with its `z` offset at `d` is produced on a `z` face |
| Ranges.ShellComplete | src/util.rs:38-48 | every point at distance `d` is produced at least once |
| Ranges.ShellExact | src/util.rs:38-48 | the shell holds exactly the points at distance `d`, in `6(2d+1)^2` entries |
| Ranges.ShellEdgeTwice | src/util.rs:38-48 | edge and corner points of the shell are produced at least twice |
| Ranges.TwoSlots | src/util.rs:41-46 | a point produced in two slots sits at two indices |
| Ranges.SlotOf | src/util.rs:41-46 | an index's slot is the index modulo 6 |
| Ranges.DivModSix | src/util.rs:41-46 | `(6q + r) % 6 == r` |
| Ranges.BorderRangeExact | src/util.rs:38-48 | `border_range` holds exactly the chunks at distance R+1, in `6(2R+3)^2` entries, none of them in `render_range` |
| Ranges.OuterBorderRangeExact | src/util.rs:52-62 | `_outer_border_range` holds exactly the chunks at distance R+2, in `6(2R+5)^2` entries, disjoint from the render range and the border |
| Worlds.Store | src/world.rs:57-75 | `set_voxel` fails iff the owning chunk is absent, and the chunk map keeps its keys |
| Worlds.StoreFrame | src/world.rs:57-75 | a store marks the owning chunk `Dirty`, keeps vectors full and leaves every other chunk as it was |
| Worlds.StoreReads | src/world.rs:57-75 | after a store, the written voxel reads back and every other global voxel reads as before |
| Worlds.HasFlat | src/world.rs:113-155 | a write occurs in a sequence iff it occurs in its list |
| Worlds.CatFlat | src/world.rs:113-155 | concatenating writes concatenates their lists |
| Worlds.Run | src/world.rs:113-155 | running writes under `?` keeps the chunk map's keys |
| Worlds.RunSucceeds | src/world.rs:113-155 | a run succeeds iff every write's chunk is present |
| Worlds.RunCat | src/world.rs:113-155 | the second part runs only if the first succeeded |
| Worlds.LastHas | src/world.rs:113-137 | the last write to a voxel is one of the writes, and none exists when nothing writes it |
| Worlds.RunReads | src/world.rs:113-155 | after a successful run, each voxel holds the last voxel written to it, or what it held |
| Worlds.TruncRem | src/world.rs:49-51 | Rust's `%` on `i32` lies strictly between `-n` and `n` and agrees with `rem_euclid` for non-negative values |
| Worlds.GetVoxelNonNegative | src/world.rs:44-54 | with non-negative coordinates, `get_voxel` reads what `set_voxel` writes |
| Worlds.GetVoxelMisreads | src/world.rs:44-54 | with a negative coordinate, `get_voxel` as written reads another voxel |
| Worlds.TrunkHeight | src/world.rs:115-118 | the trunk height lies in `[4, 7]` |
| Worlds.Strides | src/world.rs:126-129 | four canopy layers |
| Worlds.TrunkCat | src/world.rs:119-122 | the trunk's writes are followed by what comes after |
| Worlds.LineCat | src/world.rs:132-135 | the same for a line |
| Worlds.SquareCat | src/world.rs:130-136 | the same for a square |
| Worlds.CanopyCat | src/world.rs:126-137 | the same for the canopy |
| Worlds.TreeCat | src/world.rs:113-139 | a tree followed by more writes is the tree's own writes, then those |
| Worlds.TreeThen | src/world.rs:113-155 | the writes after a tree run only when the whole tree succeeded |
| Worlds.LineHas | src/world.rs:132-135 | a line is LEAF exactly on its row from `tz0` to the bound |
| Worlds.SquareHas | src/world.rs:130-136 | a square is LEAF exactly on its square |
| Worlds.AbsWithin | src/world.rs:130-132 | `abs(a) <= s` iff `-s <= a <= s` |
| Worlds.LayerHas | src/world.rs:128-136 | each canopy layer is LEAF exactly within its own half-width at its height |
| Worlds.CanopyHas | src/world.rs:126-137 | the canopy is LEAF exactly on its layers' squares |
| Worlds.TrunkFlat | src/world.rs:119-122 | the trunk writes WOOD up from its base for the given height |
| Worlds.TreeTrunk | src/world.rs:113-124 | `build_tree_at` writes WOOD at `(x, y+t, z)` for `t` below `h` in `[4, 7]`, then LEAF at `(x, y+h, z)`, then the canopy |
| Worlds.TreeCanopy | src/world.rs:126-137 | the canopy is LEAF exactly on the four layers above the trunk, layer `ty` within half-width `stride` of the trunk |
| Worlds.PickStep | src/world.rs:86-108 | one more position adds that position when it is wanted |
| Worlds.PickMembers | src/world.rs:86-108 | a list holds exactly the wanted positions of its range |
| Worlds.PromoteSorting | src/world.rs:78-110 | missing in-range chunks go into all three lists, `Dirty` ones only into dirty, `Terrain` ones only into terrain, other statuses into none; missing border chunks go into build only; nothing else is listed |
| Worlds.World.State | src/world.rs:8 | the snapshot covers exactly the positions of the chunk map |
| Worlds.World.Statuses | src/world.rs:8 | the status map holds every chunk's status |
| Worlds.World.constructor | src/world.rs:13-20 | `World::new` has no chunks |
| Worlds.World.SetVoxel | src/world.rs:57-75 | the new state is `Store` of the old one, or unchanged with failure when the owning chunk is absent |
| Worlds.World.Paint1 | src/world.rs:121-134 | one write of a running sequence either leaves the rest to run or stops the run |
| Worlds.World.PaintTrunk | src/world.rs:119-122 | the trunk loop runs its writes in order and stops at the first failure |
| Worlds.World.PaintLine | src/world.rs:132-135 | the innermost canopy loop runs its writes in order and stops at the first failure |
| Worlds.World.PaintSquare | src/world.rs:130-136 | one canopy layer runs its writes in order and stops at the first failure |
| Worlds.World.PaintCanopy | src/world.rs:126-137 | the canopy loop runs its writes in order and stops at the first failure |
| Worlds.World.BuildTreeAt | src/world.rs:113-139 | the new state and the result are those of running the tree's writes in order, stopping at the first failure |
| Worlds.World.Decorate | src/world.rs:143-155 | the new state and the result are those of running every seed's tree, in list order, stopping at the first failure |
| Worlds.World.PromoteChunks | src/world.rs:78-110 | the three lists are the wanted positions of the render range and border range, in iteration order |
| Renderer.GlTypeAsWrittenSwapped | src/renderer.rs:49-56 | as written, `gl_type` names a float type for `U32` and an integer type for `F32` |
| Renderer.GlTypeAgrees | src/renderer.rs:49-62 | the corrected `gl_type` is an integer GL type exactly for the integral element types, and distinct types get distinct GL types |
| Renderer.ElementTypes | src/renderer.rs:41-62 | every element type is four bytes wide, and `is_integral` holds exactly for `I32` and `U32` |
| Renderer.LayoutBytesAppend | src/renderer.rs:14-25 | adding an element grows the size by four bytes per value |
| Renderer.LayoutBytesQuantities | src/renderer.rs:18-25 | a layout's size is four bytes per value of all its elements |
| Renderer.BufferLayout.constructor | src/renderer.rs:8-11 | a default layout has no elements |
| Renderer.BufferLayout.Add | src/renderer.rs:14-16 | `add` appends exactly the element at the end |
| Renderer.BufferLayout.Size | src/renderer.rs:18-25 | `size` is the sum of `quantity * size` over the elements |
| Renderer.LayoutGrowth | src/renderer.rs:8-25 | a default layout has size 0; `add` grows it by `quantity * 4` and keeps the earlier elements |
| Renderer.BufferBytesPerVertex | src/renderer.rs:66-75 | a buffer's size is its length times the vertex width, growing by one width per vertex |
| VkPhysicalDevice.Score | src/vk/physical_device.rs:4-13 | the score is 1000 for a discrete GPU and 0 otherwise |
| VkPhysicalDevice.GreatestExists | src/vk/physical_device.rs:38 | a non-empty score map has a greatest key |
| VkPhysicalDevice.Create | src/vk/physical_device.rs:15-39 | a device is chosen iff there is one; it scores highest and no later device scores as high |
| VkPhysicalDevice.LastBestChoice | src/vk/physical_device.rs:20-38 | any other device scores lower, or the same and comes earlier; with a discrete GPU present, a discrete GPU is chosen |
| VkPhysicalDevice.LastServing | src/vk/physical_device.rs:53-72 | the last transfer-capable or presenting family among the first `k` |
| VkPhysicalDevice.LastGraphicsOnly | src/vk/physical_device.rs:53-72 | the last graphics family without transfer among the first `k` |
| VkPhysicalDevice.GetQueueFamilies | src/vk/physical_device.rs:41-87 | the lookup succeeds iff some family supports transfer or present; transfer is the last such family and present equals it; graphics is the last graphics-only family, else transfer |
| VkPhysicalDevice.QueuesServe | src/vk/physical_device.rs:74-86 | the transfer and present families support transfer or present, and the graphics family supports graphics or is the transfer family |
| VkPhysicalDevice.Iter | src/vk/physical_device.rs:96-99 | `iter` is `[graphics, present, transfer]` |
| VkPhysicalDevice.Unique | src/vk/swapchain.rs:59-65 | the distinct families are exactly those of `iter` |
| VkPhysicalDevice.UniqueQueues | src/vk/swapchain.rs:59-72 | with present equal to transfer, the families are distinct iff graphics differs from transfer |
| VkImage.FindMemoryType | src/vk/image.rs:117-140 | the result is the first memory type allowed by the filter that has all wanted properties, or failure iff there is none |
| VkImage.SuitableContains | src/vk/image.rs:128-137 | a suitable type is allowed by the filter and its flags include every wanted property |
| VkImage.FindSupportedImageFormat | src/vk/image.rs:142-169 | the first candidate with the features under the tiling, or failure iff none has them |
| VkImage.OtherTiling | src/vk/image.rs:150-163 | no tiling other than linear and optimal qualifies |
| VkImage.FindDepthFormat | src/vk/image.rs:171-183 | `D32_SFLOAT`, then `D32_SFLOAT_S8_UINT`, then `D24_UNORM_S8_UINT`, the first that is depth capable, or failure |
| VkSwapchain.ChooseFormat | src/vk/swapchain.rs:139-151 | the sRGB BGRA format when offered, otherwise the first one |
| VkSwapchain.ChoosePresentMode | src/vk/swapchain.rs:153-163 | `MAILBOX` when offered, otherwise the first mode |
| VkSwapchain.ChoicesOffered | src/vk/swapchain.rs:139-163 | both choices are among the offered entries |
| VkSwapchain.AsU32 | src/vk/swapchain.rs:172-173 | `as u32` keeps values in range and always gives a `u32` |
| VkSwapchain.ChooseExtent | src/vk/swapchain.rs:165-175 | the current extent unless its width is `u32::MAX`, else the framebuffer size |
| VkSwapchain.ImageCountNoMaximum | src/vk/swapchain.rs:46-48 | as written, a surface with no maximum gets no images, fewer than its minimum |
| VkSwapchain.ImageCountBounds | src/vk/swapchain.rs:46-48 | the corrected count is one more than the minimum, capped at a maximum when there is one, never below the minimum, and as written whenever there is a maximum |
| VkSwapchain.Sharing | src/vk/swapchain.rs:59-72 | concurrent iff the queue families are not all one |
| VkSwapchain.SharingOfLookup | src/vk/swapchain.rs:59-72 | with the families from `get_queue_families`, sharing is concurrent iff graphics differs from transfer |

## Left out

- The f32 `floor` in `World::get_voxel` and `World::set_voxel` (src/world.rs:46-48, 59-61) is modelled as integer floor division. That matches the source only for coordinates below 2^24 in magnitude.
- Noise, `Noise::get_height` (Perlin noise over f64): the height function is a parameter.
- Hash table: `math::HASH` is not part of this model and is a non-empty parameter.
  - The `as usize` casts of possibly negative `i32` values wrap modulo 2^64 (`HashIndex`).
  - The `i32` products `x*13+y*3+z*3` and similar are taken over unbounded integers, without `i32` overflow.
- `i32` overflow is not modelled anywhere else either. Coordinates and heights are unbounded integers.
  - `Chunks.Chunk.SetVoxel` and the others: stated without `i32` wrap-around, because the engine never reaches coordinates near 2^31.
- `Arc::try_unwrap` (src/world.rs:66-73): the world owns its chunk map exclusively, so the unwrap always succeeds. The failing branch, which would drop the chunk silently, is not modelled.
- `World::set_voxel` does not compile as written: the `()` result of `Chunk::set_voxel` is assigned to `inner` (src/world.rs:70). It is modelled by its evident intent: the chunk is updated in place and put back.
- `chunk_build_task` does not compile as written either: it returns the unit result of `build_voxels` as the chunk (src/world.rs:27). It is modelled as returning the chunk that `build_voxels` generated.
- Worlds.World.SetVoxel, Worlds.Store: a missing chunk makes the source panic (`expect`). The model returns failure with nothing changed, and `build_tree_at`/`decorate` stop on it as they stop on an `Err`.
- The vector-length branch of `Store` is never taken for a valid world, whose every chunk has a full vector.
- `render_range` and `border_range` are rayon parallel iterators. They are modelled as sequences in their nested-range order; `promote_chunks` consumes them sequentially.
- Concurrency is not modelled: the rayon maps, channels and the mesh builder thread (scene.rs, window.rs).
- HashMap iteration order in `get_vertices_greedy` and `get_vertices_water` is modelled as an arbitrary choice. The mesh is therefore specified up to the order of the per-plane vertex blocks.
- Mesh.CullWater: the source's water culled array has 2048 entries, and only its even entries are written. The model uses 6144 entries so both passes share `Row`. The entries the top face reads are the same in both.
- The legacy per-voxel-type path `get_vertex_data`/`generate_masks` (src/chunk.rs:452-694) is not part of this model. It depends on definitions outside the shown files and is superseded by `get_mesh`.
- `Chunk::filled`, `Chunk::draw`, `update_uniforms`, `Chunk::center` (f32 math) and the vertex-array handling of `build_mesh` are left out. Only the status rule of `build_mesh` is modelled.
- `ChunkStatus::Terrain` is never assigned by the code shown, so no model operation produces it. `promote_chunks` still sorts it.
- The settings file declares `VOXELS` with only `EMPTY` and `SOLID`, while chunk.rs uses eight more kinds. The model's `Voxel` has `EMPTY` (id 0) and those eight kinds, each with an id below 16.
- `BufferLayout::size` is computed in `usize`, and its overflow is not modelled. `VertexBuffer::size` takes the vertex width as a parameter in place of `size_of::<T>()`.
- `GLVertexArray`, shaders, textures, OpenGL and Vulkan object creation, drawing and `Drop` impls are graphics plumbing and are left out. `unpack_data` is kept as the decoder.
- src/vulkan.rs is an older copy of the src/vk/ selection code and is not modelled.
- VkImage.FindMemoryType: it requires at most 32 memory types, as the Vulkan specification guarantees (`VK_MAX_MEMORY_TYPES`), so `1 << i` does not overflow.
- VkSwapchain.ChooseFormat, VkSwapchain.ChoosePresentMode: they require a non-empty list, because the source indexes `[0]`; Vulkan surfaces always report at least one format and mode.
- VkSwapchain.ImageCountBounds: `min_image_count + 1` is taken over unbounded integers, without `u32` overflow.
- Driver queries are inputs: device properties, queue-family properties, surface support, memory and format properties, and surface capabilities.
- The sharing mode's family list is the set of distinct indices, because the source collects a `HashSet`. The order in which it is passed to Vulkan is not modelled.
- `get_queue_families` is modelled as written: a presenting family becomes the transfer family, and the present index is never set in the loop.
- Camera, window, input handling and frame timing are outside the meshing core.

## Findings

| source | as written | input that shows it | evidently intended | confidence | as-written member | corrected member |
|---|---|---|---|---|---|---|
| src/renderer.rs:49-56 | `gl_type` maps `U32` to `GL_FLOAT` and `F32` to `GL_UNSIGNED_INT` | a `U32` attribute: `is_integral` sends it down the integer path with a float type name | `U32` to `GL_UNSIGNED_INT`, `F32` to `GL_FLOAT` | high, not executed | Renderer.GlTypeAsWrittenSwapped | Renderer.GlTypeAgrees |
| src/vk/swapchain.rs:46-48 | `image_count = min(max_image_count, min_image_count + 1)` | `min_image_count = 2` with `max_image_count = 0`, which Vulkan uses to mean no maximum, gives 0 images | one more than the minimum, capped only when a maximum exists | high, not executed | VkSwapchain.ImageCountNoMaximum | VkSwapchain.ImageCountBounds |
| src/world.rs:49-51 | `World::get_voxel` takes local coordinates with truncating `%`, while `set_voxel` uses `rem_euclid` | global `(-1, 1, 0)` is local `(31, 1, 0)` of chunk `(-1, 0, 0)`, but `get_voxel` reads flat index 1023, local `(31, 0, 31)` | local coordinates by `rem_euclid`, as `set_voxel` writes them | medium, not executed | Worlds.GetVoxelMisreads | Worlds.StoreReads |
