/**
 * The two meshing passes of a chunk. Each column mask from `build_masks` is
 * culled to the voxels whose face along the column's axis is exposed; the set
 * bits are sorted into 32 x 32 planes, one per face, voxel kind and depth; and
 * every plane is handed to the greedy mesher. The opaque pass meshes all six
 * faces of every voxel that is neither empty nor water; the water pass meshes
 * only the top faces of water.
 */
module Mesh {
  import opened Settings
  import opened Words
  import opened Faces
  import opened Chunks
  import opened Clusters
  import opened Masks
  import opened Packing
  import opened Greedy

  // ---------------------------------------------------------------------
  // Culling
  // ---------------------------------------------------------------------

  /** `(row & !(row >> 1)) >> 1 & 0xFFFFFFFF` on a `u64` column mask: bit `k` is set
    * iff the voxel at `k` is set in the mask (bit `k + 1`) and the next one along
    * the axis is not (bit `k + 2`), i.e. its face towards the axis' positive end is
    * exposed. */
  function CullLeft(row: Word): (r: Word)
    ensures Fits(r, 32)
    ensures forall k: nat :: k in r <==> k < 32 && k + 1 in row && k + 2 !in row
  {
    var kept := row * Not(Shr(row, 1), 64);
    assert forall j: nat :: j < 64 ==> (j in kept <==> j in row && j + 1 !in row);
    Shr(kept, 1) * Range(0, 32)
  }

  /** `(row & !(row << 1)) >> 1 & 0xFFFFFFFF`: bit `k` is set iff the voxel at `k` is
    * set in the mask and the previous one along the axis (bit `k`) is not, i.e. its
    * face towards the axis' negative end is exposed. */
  function CullRight(row: Word): (r: Word)
    ensures Fits(r, 32)
    ensures forall k: nat :: k in r <==> k < 32 && k + 1 in row && k !in row
  {
    var kept := row * Not(Shl(row, 1, 64), 64);
    assert forall j: nat :: 1 <= j < 64 ==> (j in kept <==> j in row && j - 1 !in row);
    Shr(kept, 1) * Range(0, 32)
  }

  /** Entry `k` of the opaque pass' `culled_solid_mask`: the even entries hold the
    * culled-left word of mask column `k / 2`, the odd ones its culled-right word. */
  function Culled(masks: seq<Word>, k: nat): (r: Word)
    requires |masks| == 3072 && k < 6144
    ensures Fits(r, 32)
  {
    if k % 2 == 0 then CullLeft(masks[k / 2]) else CullRight(masks[k / 2])
  }

  /** The culling loop of `get_vertices_greedy`. */
  method CullMasks(masks: seq<Word>) returns (culled: seq<Word>)
    requires |masks| == 3072
    ensures |culled| == 6144
    ensures forall k :: 0 <= k < 6144 ==> culled[k] == Culled(masks, k)
  {
    var a := new Word[6144](_ => {});
    for i := 0 to 3072
      invariant forall k :: 0 <= k < 2 * i ==> a[k] == Culled(masks, k)
    {
      a[2 * i] := CullLeft(masks[i]);
      a[2 * i + 1] := CullRight(masks[i]);
    }
    culled := a[..];
  }

  /** Entry `k` of the water pass' `culled_solid_mask`: only the first 1024 columns are
    * culled, and only to the left; every other entry stays zero. */
  function WaterCulled(masks: seq<Word>, k: nat): (r: Word)
    requires |masks| == 3072 && k < 6144
    ensures Fits(r, 32)
  {
    if k % 2 == 0 && k < 2048 then CullLeft(masks[k / 2]) else {}
  }

  /** The culling loop of `get_vertices_water`. */
  method CullWater(masks: seq<Word>) returns (culled: seq<Word>)
    requires |masks| == 3072
    ensures |culled| == 6144
    ensures forall k :: 0 <= k < 6144 ==> culled[k] == WaterCulled(masks, k)
  {
    var a := new Word[6144](_ => {});
    for i := 0 to 1024
      invariant forall k :: 0 <= k < 6144 ==> a[k] == (if k < 2 * i then WaterCulled(masks, k) else {})
    {
      a[2 * i] := CullLeft(masks[i]);
    }
    culled := a[..];
  }

  /** The `culled_solid_mask` entry a face reads at plane coordinates `(a, b)`: the
    * face's axis picks the group of mask columns (`id >> 1`), and its direction
    * picks the culled-left (`id & 1 == 0`) or culled-right word. */
  function Row(f: Face, a: int, b: int): (k: nat)
    requires 0 <= a < 32 && 0 <= b < 32
    ensures k < 6144
  {
    (a + b * 32) * 2 + Id(f) % 2 + Id(f) / 2 * 2048
  }

  /** Face `f` reads column `(a, b)` of mask group `id >> 1`, culled to the left when
    * `id & 1 == 0` and to the right otherwise. */
  lemma RowParts(f: Face, a: int, b: int)
    requires 0 <= a < 32 && 0 <= b < 32
    ensures Row(f, a, b) / 2 == Col(Id(f) / 2, a, b) && Row(f, a, b) % 2 == Id(f) % 2
  {
    DivModUnique(Row(f, a, b), 2, Col(Id(f) / 2, a, b), Id(f) % 2);
  }

  /** The chunk coordinates of bit `c` of plane column `a`, bit `b`, for face `f`. */
  function At(f: Face, a: int, b: int, c: int): Pos {
    match f
    case Top => Pos(a, c, b)
    case Bottom => Pos(a, c, b)
    case Right => Pos(c, a, b)
    case Left => Pos(c, a, b)
    case Front => Pos(a, b, c)
    case Back => Pos(a, b, c)
  }

  lemma AtInChunk(f: Face, a: int, b: int, c: int)
    requires 0 <= a < 32 && 0 <= b < 32 && 0 <= c < 32
    ensures var p := At(f, a, b, c); InChunk(p.x, p.y, p.z)
  {
  }

  // ---------------------------------------------------------------------
  // What a culled bit means
  // ---------------------------------------------------------------------

  /** Everything `build_masks` promises about its result. */
  ghost predicate MaskMeaning(masks: seq<Word>, voxels: seq<Voxel>, c: Cluster, cond: Voxel -> bool)
    requires Full(voxels) && Valid(c)
  {
    |masks| == 3072
    && (forall x, y, z :: InChunk(x, y, z) ==>
      (y + 1 in masks[x + z * 32] <==> cond(Cell(voxels, x, y, z)))
      && (x + 1 in masks[y + z * 32 + 1024] <==> cond(Cell(voxels, x, y, z)))
      && (z + 1 in masks[x + y * 32 + 2048] <==> cond(Cell(voxels, x, y, z))))
    && (forall a, b :: 0 <= a < 32 && 0 <= b < 32 ==>
      (0 in masks[a + b * 32] <==> cond(GetVoxel(c, a, -1, b)))
      && (33 in masks[a + b * 32] <==> cond(GetVoxel(c, a, 32, b)))
      && (0 in masks[a + b * 32 + 1024] <==> cond(GetVoxel(c, -1, a, b)))
      && (33 in masks[a + b * 32 + 1024] <==> cond(GetVoxel(c, 32, a, b)))
      && (0 in masks[a + b * 32 + 2048] <==> cond(GetVoxel(c, a, b, -1)))
      && (33 in masks[a + b * 32 + 2048] <==> cond(GetVoxel(c, a, b, 32))))
  }

  /** The voxel across face `f` of in-chunk voxel `p`, as the masks see it: read from
    * the chunk when that position is inside it, from the cluster otherwise. */
  function Across(voxels: seq<Voxel>, c: Cluster, f: Face, p: Pos): Voxel
    requires Full(voxels) && Valid(c)
  {
    var d := Offset(f);
    var q := Pos(p.x + d.0, p.y + d.1, p.z + d.2);
    if InChunk(q.x, q.y, q.z) then Cell(voxels, q.x, q.y, q.z) else GetVoxel(c, q.x, q.y, q.z)
  }

  /** Face `f` of the voxel at `p` is exposed: the voxel satisfies the pass'
    * condition and the one across the face does not. */
  ghost predicate Exposed(voxels: seq<Voxel>, c: Cluster, cond: Voxel -> bool, f: Face, p: Pos)
    requires Full(voxels) && Valid(c) && InChunk(p.x, p.y, p.z)
  {
    cond(Cell(voxels, p.x, p.y, p.z)) && !cond(Across(voxels, c, f, p))
  }

  /** The voxel at position `k` along column `(a, b)` of mask group `g`: in the chunk
    * for `0 <= k < 32`, the cluster's voxel before or after the chunk otherwise. */
  function Along(voxels: seq<Voxel>, c: Cluster, g: int, a: int, b: int, k: int): Voxel
    requires Full(voxels) && Valid(c) && 0 <= a < 32 && 0 <= b < 32
  {
    if 0 <= k < 32 then
      (if g == 0 then Cell(voxels, a, k, b) else if g == 1 then Cell(voxels, k, a, b) else Cell(voxels, a, b, k))
    else Probe(c, g, a, b, k)
  }

  /** Bit `k + 1` of a mask column is the condition on the voxel at `k` along it. */
  lemma MaskBit(masks: seq<Word>, voxels: seq<Voxel>, cl: Cluster, cond: Voxel -> bool,
                g: int, a: int, b: int, k: int)
    requires Full(voxels) && Valid(cl) && MaskMeaning(masks, voxels, cl, cond)
    requires 0 <= g < 3 && 0 <= a < 32 && 0 <= b < 32 && -1 <= k <= 32
    ensures k + 1 in masks[Col(g, a, b)] <==> cond(Along(voxels, cl, g, a, b, k))
  {
    if g == 0 && 0 <= k < 32 {
      assert InChunk(a, k, b);
    } else if g == 1 && 0 <= k < 32 {
      assert InChunk(k, a, b);
    } else if 0 <= k < 32 {
      assert InChunk(a, b, k);
    }
  }

  /** Along the column a face reads, position `c` is the voxel at `At(f, a, b, c)`, and
    * one step towards the face is the voxel across it. */
  lemma AlongAt(voxels: seq<Voxel>, cl: Cluster, f: Face, a: int, b: int, c: int)
    requires Full(voxels) && Valid(cl) && 0 <= a < 32 && 0 <= b < 32 && 0 <= c < 32
    ensures var p := At(f, a, b, c); var g := Id(f) / 2;
      Along(voxels, cl, g, a, b, c) == Cell(voxels, p.x, p.y, p.z)
      && Along(voxels, cl, g, a, b, if Id(f) % 2 == 0 then c + 1 else c - 1) == Across(voxels, cl, f, p)
  {
    match f
    case Top =>
    case Bottom =>
    case Right =>
    case Left =>
    case Front =>
    case Back =>
  }

  /** Whether a face is exposed is the condition on two neighbouring voxels along the
    * column the face reads. */
  lemma ExposedAlong(voxels: seq<Voxel>, cl: Cluster, cond: Voxel -> bool, f: Face, a: int, b: int, c: int)
    requires Full(voxels) && Valid(cl) && 0 <= a < 32 && 0 <= b < 32 && 0 <= c < 32
    ensures var p := At(f, a, b, c); var g := Id(f) / 2;
      InChunk(p.x, p.y, p.z)
      && (Exposed(voxels, cl, cond, f, p) <==>
          cond(Along(voxels, cl, g, a, b, c))
          && !cond(Along(voxels, cl, g, a, b, if Id(f) % 2 == 0 then c + 1 else c - 1)))
  {
    AtInChunk(f, a, b, c);
    AlongAt(voxels, cl, f, a, b, c);
  }

  /** The culled bit a face reads at `(a, b, c)` is set iff that face of the voxel at
    * `At(f, a, b, c)` is exposed. */
  lemma CulledExposed(masks: seq<Word>, voxels: seq<Voxel>, cl: Cluster, cond: Voxel -> bool,
                      f: Face, a: int, b: int, c: int)
    requires Full(voxels) && Valid(cl) && MaskMeaning(masks, voxels, cl, cond)
    requires 0 <= a < 32 && 0 <= b < 32 && 0 <= c < 32
    ensures c in Culled(masks, Row(f, a, b)) <==> Exposed(voxels, cl, cond, f, At(f, a, b, c))
  {
    ExposedAlong(voxels, cl, cond, f, a, b, c);
    var g := Id(f) / 2;
    var n := if Id(f) % 2 == 0 then c + 1 else c - 1;
    var row := masks[Col(g, a, b)];
    RowParts(f, a, b);
    assert Culled(masks, Row(f, a, b)) == if Id(f) % 2 == 0 then CullLeft(row) else CullRight(row);
    MaskBit(masks, voxels, cl, cond, g, a, b, c);
    MaskBit(masks, voxels, cl, cond, g, a, b, n);
  }

  // ---------------------------------------------------------------------
  // Sorting culled bits into planes
  // ---------------------------------------------------------------------

  /** `HashMap<u32, [u32; 32]>`: planes by depth along the face's axis. */
  type Layers = map<nat, seq<Word>>

  /** `HashMap<VOXELS, HashMap<u32, [u32; 32]>>`: one face's planes by voxel kind, then depth. */
  type Planes = map<Voxel, Layers>

  /** `[u32; 32]::default()`. */
  function EmptyPlane(): (p: seq<Word>)
    ensures |p| == 32 && forall i :: 0 <= i < 32 ==> p[i] == {}
  {
    seq(32, _ => {})
  }

  /** A plane the mesher receives: 32 columns of 32 bits, at least one of them set. */
  ghost predicate Sheet(p: seq<Word>) {
    |p| == 32 && (forall i :: 0 <= i < 32 ==> Fits(p[i], 32)) && p != EmptyPlane()
  }

  /** Every culled word has 32 bits. */
  ghost predicate Culls(culled: seq<Word>) {
    |culled| == 6144 && forall k :: 0 <= k < 6144 ==> Fits(culled[k], 32)
  }

  /** `self.get_voxel(x, y, z)` at the coordinates of plane bit `(a, b)` at depth `c`. */
  function VoxelAt(voxels: seq<Voxel>, f: Face, a: int, b: int, c: int): Voxel
    requires Full(voxels) && 0 <= a < 32 && 0 <= b < 32 && 0 <= c < 32
  {
    var p := At(f, a, b, c);
    AtInChunk(f, a, b, c);
    Cell(voxels, p.x, p.y, p.z)
  }

  /** Bit `b` of column `a` of the plane for face `f` at depth `c`: the culled word the
    * face reads at `(a, b)` has bit `c` and, when the planes are kept per voxel kind
    * (`sel == Some(v)`), the chunk holds `v` there. */
  predicate Hit(culled: seq<Word>, voxels: seq<Voxel>, f: Face, a: int, b: int, c: int, sel: Option<Voxel>)
    requires |culled| == 6144 && Full(voxels)
  {
    0 <= a < 32 && 0 <= b < 32 && 0 <= c < 32 && c in culled[Row(f, a, b)]
    && (sel.Some? ==> VoxelAt(voxels, f, a, b, c) == sel.value)
  }

  /** The sweep has reached plane position `t = a * 32 + b` and, there, has still to
    * sort the bits in `rest`. */
  predicate Before(a: int, b: int, c: int, t: int, rest: Word) {
    a * 32 + b < t || (a * 32 + b == t && c !in rest)
  }

  /** A hit the sweep has passed. */
  predicate Passed(culled: seq<Word>, voxels: seq<Voxel>, f: Face, a: int, b: int, c: int,
                   sel: Option<Voxel>, t: int, rest: Word)
    requires |culled| == 6144 && Full(voxels)
  {
    Hit(culled, voxels, f, a, b, c, sel) && Before(a, b, c, t, rest)
  }

  /** Every stored plane is a non-empty 32 x 32 plane at a depth inside the chunk, and
    * its bits are exactly the hits passed so far ... */
  ghost predicate LayerBits(L: Layers, culled: seq<Word>, voxels: seq<Voxel>, f: Face, sel: Option<Voxel>, t: int, rest: Word)
    requires |culled| == 6144 && Full(voxels)
  {
    (forall c :: c in L ==> c < 32 && Sheet(L[c]))
    && forall c: int, a: int, b: int :: c in L && 0 <= a < 32 ==>
      (b in L[c][a] <==> Passed(culled, voxels, f, a, b, c, sel, t, rest))
  }

  /** ... and each of those hits has its plane. */
  ghost predicate LayerKeys(L: Layers, culled: seq<Word>, voxels: seq<Voxel>, f: Face, sel: Option<Voxel>, t: int, rest: Word)
    requires |culled| == 6144 && Full(voxels)
  {
    forall c: int, a: int, b: int :: Passed(culled, voxels, f, a, b, c, sel, t, rest) ==> c in L
  }

  ghost predicate Layered(L: Layers, culled: seq<Word>, voxels: seq<Voxel>, f: Face, sel: Option<Voxel>, t: int, rest: Word)
    requires |culled| == 6144 && Full(voxels)
  {
    LayerBits(L, culled, voxels, f, sel, t, rest) && LayerKeys(L, culled, voxels, f, sel, t, rest)
  }

  /** The face's planes hold exactly the hits the sweep has passed, per voxel kind. */
  ghost predicate Bucketed(P: Planes, culled: seq<Word>, voxels: seq<Voxel>, f: Face, t: int, rest: Word)
    requires |culled| == 6144 && Full(voxels)
  {
    (forall v :: v in P ==> Layered(P[v], culled, voxels, f, Some(v), t, rest))
    && (forall v, c: int, a: int, b: int :: Passed(culled, voxels, f, a, b, c, Some(v), t, rest) ==> v in P)
  }

  /** `layers.entry(c).or_default()[a] |= 1 << b`. */
  function AddLayer(L: Layers, c: nat, a: nat, b: nat): (r: Layers)
    requires a < 32 && (c in L ==> |L[c]| == 32)
    ensures r.Keys == L.Keys + {c} && |r[c]| == 32
    ensures forall d :: d in L && d != c ==> r[d] == L[d]
  {
    var plane := if c in L then L[c] else EmptyPlane();
    L[c := plane[a := plane[a] + {b}]]
  }

  /** `planes.entry(v).or_default().entry(c).or_default()[a] |= 1 << b`. */
  function Add(P: Planes, v: Voxel, c: nat, a: nat, b: nat): (r: Planes)
    requires a < 32 && (v in P && c in P[v] ==> |P[v][c]| == 32)
    ensures r.Keys == P.Keys + {v}
    ensures forall w :: w in P && w != v ==> r[w] == P[w]
    ensures r[v] == AddLayer(if v in P then P[v] else map[], c, a, b)
  {
    P[v := AddLayer(if v in P then P[v] else map[], c, a, b)]
  }

  lemma PlacesUnique(a: int, b: int, a': int, b': int)
    requires 0 <= b < 32 && 0 <= b' < 32 && a * 32 + b == a' * 32 + b'
    ensures a == a' && b == b'
  {
  }

  /** Filing bit `c` of the row at `t` moves exactly that hit into the passed ones. */
  lemma PassedStep(culled: seq<Word>, voxels: seq<Voxel>, f: Face, a: int, b: int, rest: Word, c: int,
                   sel: Option<Voxel>, c': int, a': int, b': int)
    requires |culled| == 6144 && Full(voxels) && 0 <= a < 32 && 0 <= b < 32
    ensures Passed(culled, voxels, f, a', b', c', sel, a * 32 + b, rest - {c}) <==>
      Passed(culled, voxels, f, a', b', c', sel, a * 32 + b, rest)
      || (a' == a && b' == b && c' == c && Hit(culled, voxels, f, a, b, c, sel))
  {
    if Hit(culled, voxels, f, a', b', c', sel) && a' * 32 + b' == a * 32 + b {
      PlacesUnique(a, b, a', b');
    }
  }

  /** Setting bit `b` of column `a` in a plane that already exists. */
  lemma AddBitOld(L: Layers, c: nat, a: nat, b: nat, a': int, b': int, was: bool)
    requires a < 32 && c in L && |L[c]| == 32 && 0 <= a' < 32 && (b' in L[c][a'] <==> was)
    ensures b' in AddLayer(L, c, a, b)[c][a'] <==> was || (a' == a && b' == b)
  {
  }

  /** Setting bit `b` of column `a` in a fresh plane. */
  lemma AddBitNew(L: Layers, c: nat, a: nat, b: nat, a': int, b': int)
    requires a < 32 && c !in L && 0 <= a' < 32
    ensures b' in AddLayer(L, c, a, b)[c][a'] <==> (a' == a && b' == b)
  {
  }

  lemma LayerBitAt(L: Layers, culled: seq<Word>, voxels: seq<Voxel>, f: Face, sel: Option<Voxel>,
                   a: int, b: int, rest: Word, c: int, c': int, a': int, b': int)
    requires Culls(culled) && Full(voxels) && 0 <= a < 32 && 0 <= b < 32 && 0 <= c < 32
    requires Layered(L, culled, voxels, f, sel, a * 32 + b, rest) && Hit(culled, voxels, f, a, b, c, sel)
    requires c' in AddLayer(L, c, a, b) && 0 <= a' < 32
    ensures b' in AddLayer(L, c, a, b)[c'][a'] <==> Passed(culled, voxels, f, a', b', c', sel, a * 32 + b, rest - {c})
  {
    PassedStep(culled, voxels, f, a, b, rest, c, sel, c', a', b');
    var was := Passed(culled, voxels, f, a', b', c', sel, a * 32 + b, rest);
    if c' != c {
      assert c' in L && AddLayer(L, c, a, b)[c'] == L[c'];
    } else if c in L {
      AddBitOld(L, c, a, b, a', b', was);
    } else {
      assert !was;
      AddBitNew(L, c, a, b, a', b');
    }
  }

  /** Filing a hit into its layers keeps them exact. */
  lemma LayerAdd(L: Layers, culled: seq<Word>, voxels: seq<Voxel>, f: Face, sel: Option<Voxel>,
                 a: int, b: int, rest: Word, c: int)
    requires Culls(culled) && Full(voxels) && 0 <= a < 32 && 0 <= b < 32 && 0 <= c < 32
    requires Layered(L, culled, voxels, f, sel, a * 32 + b, rest) && Hit(culled, voxels, f, a, b, c, sel)
    ensures Layered(AddLayer(L, c, a, b), culled, voxels, f, sel, a * 32 + b, rest - {c})
  {
    LayerAddBits(L, culled, voxels, f, sel, a, b, rest, c);
    LayerAddKeys(L, culled, voxels, f, sel, a, b, rest, c);
  }

  /** The planes after filing a hit hold exactly the hits passed with it. */
  lemma LayerAddBits(L: Layers, culled: seq<Word>, voxels: seq<Voxel>, f: Face, sel: Option<Voxel>,
                 a: int, b: int, rest: Word, c: int)
    requires Culls(culled) && Full(voxels) && 0 <= a < 32 && 0 <= b < 32 && 0 <= c < 32
    requires Layered(L, culled, voxels, f, sel, a * 32 + b, rest) && Hit(culled, voxels, f, a, b, c, sel)
    ensures LayerBits(AddLayer(L, c, a, b), culled, voxels, f, sel, a * 32 + b, rest - {c})
  {
    var M := AddLayer(L, c, a, b);
    var rest', t := rest - {c}, a * 32 + b;
    LayerAddSheets(L, culled, voxels, f, sel, a, b, rest, c);
    forall c': int, a': int, b': int | c' in M && 0 <= a' < 32
      ensures b' in M[c'][a'] <==> Passed(culled, voxels, f, a', b', c', sel, t, rest')
    {
      LayerBitAt(L, culled, voxels, f, sel, a, b, rest, c, c', a', b');
    }
  }

  /** Filing a hit leaves every plane a non-empty 32 x 32 plane inside the chunk. */
  lemma LayerAddSheets(L: Layers, culled: seq<Word>, voxels: seq<Voxel>, f: Face, sel: Option<Voxel>,
                 a: int, b: int, rest: Word, c: int)
    requires Culls(culled) && Full(voxels) && 0 <= a < 32 && 0 <= b < 32 && 0 <= c < 32
    requires Layered(L, culled, voxels, f, sel, a * 32 + b, rest) && Hit(culled, voxels, f, a, b, c, sel)
    ensures forall c' :: c' in AddLayer(L, c, a, b) ==> c' < 32 && Sheet(AddLayer(L, c, a, b)[c'])
  {
    var M := AddLayer(L, c, a, b);
    forall c' | c' in M ensures c' < 32 && Sheet(M[c']) {
      if c' == c {
        LayerBitAt(L, culled, voxels, f, sel, a, b, rest, c, c, a, b);
        assert b in M[c][a];
      } else {
        assert M[c'] == L[c'];
      }
    }
  }

  /** Every hit passed once the hit is filed has its plane. */
  lemma LayerAddKeys(L: Layers, culled: seq<Word>, voxels: seq<Voxel>, f: Face, sel: Option<Voxel>,
                 a: int, b: int, rest: Word, c: int)
    requires Culls(culled) && Full(voxels) && 0 <= a < 32 && 0 <= b < 32 && 0 <= c < 32
    requires Layered(L, culled, voxels, f, sel, a * 32 + b, rest) && Hit(culled, voxels, f, a, b, c, sel)
    ensures LayerKeys(AddLayer(L, c, a, b), culled, voxels, f, sel, a * 32 + b, rest - {c})
  {
    var M := AddLayer(L, c, a, b);
    var rest', t := rest - {c}, a * 32 + b;
    forall c': int, a': int, b': int | Passed(culled, voxels, f, a', b', c', sel, t, rest')
      ensures c' in M
    {
      PassedStep(culled, voxels, f, a, b, rest, c, sel, c', a', b');
    }
  }

  /** The bit filed under another voxel kind leaves these layers exact. */
  lemma LayerSkip(L: Layers, culled: seq<Word>, voxels: seq<Voxel>, f: Face, sel: Option<Voxel>,
                  a: int, b: int, rest: Word, c: int)
    requires Culls(culled) && Full(voxels) && 0 <= a < 32 && 0 <= b < 32
    requires Layered(L, culled, voxels, f, sel, a * 32 + b, rest) && !Hit(culled, voxels, f, a, b, c, sel)
    ensures Layered(L, culled, voxels, f, sel, a * 32 + b, rest - {c})
  {
    var rest', t := rest - {c}, a * 32 + b;
    forall c': int, a': int, b': int
      ensures Passed(culled, voxels, f, a', b', c', sel, t, rest') <==> Passed(culled, voxels, f, a', b', c', sel, t, rest)
    {
      PassedStep(culled, voxels, f, a, b, rest, c, sel, c', a', b');
    }
  }

  /** Filing bit `c` of the row at `(a, b)` under the voxel there keeps the face's
    * planes exact. */
  lemma AddHit(P: Planes, culled: seq<Word>, voxels: seq<Voxel>, f: Face, a: int, b: int, rest: Word, c: int)
    requires Culls(culled) && Full(voxels) && 0 <= a < 32 && 0 <= b < 32
    requires Bucketed(P, culled, voxels, f, a * 32 + b, rest)
    requires rest <= culled[Row(f, a, b)] && c in rest
    ensures 0 <= c < 32
    ensures Bucketed(Add(P, VoxelAt(voxels, f, a, b, c), c, a, b), culled, voxels, f, a * 32 + b, rest - {c})
  {
    assert c < 32;
    var v0 := VoxelAt(voxels, f, a, b, c);
    var Q := Add(P, v0, c, a, b);
    var rest', t := rest - {c}, a * 32 + b;
    assert Hit(culled, voxels, f, a, b, c, Some(v0));
    forall v | v in Q ensures Layered(Q[v], culled, voxels, f, Some(v), t, rest') {
      AddHitAt(P, culled, voxels, f, a, b, rest, c, v);
    }
    forall v, c': int, a': int, b': int | Passed(culled, voxels, f, a', b', c', Some(v), t, rest')
      ensures v in Q
    {
      PassedStep(culled, voxels, f, a, b, rest, c, Some(v), c', a', b');
    }
  }

  lemma AddHitAt(P: Planes, culled: seq<Word>, voxels: seq<Voxel>, f: Face, a: int, b: int, rest: Word, c: int, v: Voxel)
    requires Culls(culled) && Full(voxels) && 0 <= a < 32 && 0 <= b < 32 && 0 <= c < 32
    requires Bucketed(P, culled, voxels, f, a * 32 + b, rest)
    requires c in culled[Row(f, a, b)] && v in Add(P, VoxelAt(voxels, f, a, b, c), c, a, b)
    ensures Layered(Add(P, VoxelAt(voxels, f, a, b, c), c, a, b)[v], culled, voxels, f, Some(v), a * 32 + b, rest - {c})
  {
    var v0 := VoxelAt(voxels, f, a, b, c);
    if v == v0 {
      assert Hit(culled, voxels, f, a, b, c, Some(v0));
      if v !in P {
        LayerNone(P, culled, voxels, f, a * 32 + b, rest, v);
      }
      LayerAdd(if v in P then P[v] else map[], culled, voxels, f, Some(v), a, b, rest, c);
    } else {
      LayerSkip(P[v], culled, voxels, f, Some(v), a, b, rest, c);
    }
  }

  /** A voxel kind without planes has no passed hits, so its empty layers are exact. */
  lemma LayerNone(P: Planes, culled: seq<Word>, voxels: seq<Voxel>, f: Face, t: int, rest: Word, v: Voxel)
    requires |culled| == 6144 && Full(voxels) && Bucketed(P, culled, voxels, f, t, rest) && v !in P
    ensures Layered(map[], culled, voxels, f, Some(v), t, rest)
  {
  }

  /** Finishing the row before `(a, b)` is starting row `(a, b)` with all its bits to sort. */
  lemma PassedRow(culled: seq<Word>, voxels: seq<Voxel>, f: Face, sel: Option<Voxel>, a: int, b: int,
                  c: int, a': int, b': int)
    requires |culled| == 6144 && Full(voxels) && 0 <= a < 32 && 0 <= b < 32
    ensures Passed(culled, voxels, f, a', b', c, sel, a * 32 + b, culled[Row(f, a, b)])
      <==> Passed(culled, voxels, f, a', b', c, sel, a * 32 + b - 1, {})
  {
    if Hit(culled, voxels, f, a', b', c, sel) && a' * 32 + b' == a * 32 + b {
      PlacesUnique(a, b, a', b');
    }
  }

  lemma LayerNextRow(L: Layers, culled: seq<Word>, voxels: seq<Voxel>, f: Face, sel: Option<Voxel>, a: int, b: int)
    requires Culls(culled) && Full(voxels) && 0 <= a < 32 && 0 <= b < 32
    requires Layered(L, culled, voxels, f, sel, a * 32 + b - 1, {})
    ensures Layered(L, culled, voxels, f, sel, a * 32 + b, culled[Row(f, a, b)])
  {
    var t, R := a * 32 + b, culled[Row(f, a, b)];
    forall c: int, a': int, b': int | c in L && 0 <= a' < 32
      ensures b' in L[c][a'] <==> Passed(culled, voxels, f, a', b', c, sel, t, R)
    {
      PassedRow(culled, voxels, f, sel, a, b, c, a', b');
    }
    forall c: int, a': int, b': int | Passed(culled, voxels, f, a', b', c, sel, t, R)
      ensures c in L
    {
      PassedRow(culled, voxels, f, sel, a, b, c, a', b');
    }
  }

  lemma NextRow(P: Planes, culled: seq<Word>, voxels: seq<Voxel>, f: Face, a: int, b: int)
    requires Culls(culled) && Full(voxels) && 0 <= a < 32 && 0 <= b < 32
    requires Bucketed(P, culled, voxels, f, a * 32 + b - 1, {})
    ensures Bucketed(P, culled, voxels, f, a * 32 + b, culled[Row(f, a, b)])
  {
    var t, R := a * 32 + b, culled[Row(f, a, b)];
    forall v | v in P ensures Layered(P[v], culled, voxels, f, Some(v), t, R) {
      LayerNextRow(P[v], culled, voxels, f, Some(v), a, b);
    }
    forall v, c: int, a': int, b': int | Passed(culled, voxels, f, a', b', c, Some(v), t, R)
      ensures v in P
    {
      PassedRow(culled, voxels, f, Some(v), a, b, c, a', b');
    }
  }

  /** The inner loop of the opaque sweep: every set bit `c` of the row the face reads at
    * `(a, b)` is filed under the voxel there and depth `c`. */
  method BucketRow(P0: Planes, culled: seq<Word>, voxels: seq<Voxel>, f: Face, a: nat, b: nat)
    returns (P: Planes)
    requires Culls(culled) && Full(voxels) && a < 32 && b < 32
    requires Bucketed(P0, culled, voxels, f, a * 32 + b, culled[Row(f, a, b)])
    ensures Bucketed(P, culled, voxels, f, a * 32 + b, {})
  {
    P := P0;
    var row := culled[Row(f, a, b)];
    while row != {}
      invariant row <= culled[Row(f, a, b)]
      invariant Bucketed(P, culled, voxels, f, a * 32 + b, row)
      decreases |row|
    {
      assert Fits(row, 32);
      ZeroIff(row, 32);
      var c := TrailingZeros(row, 32);
      var p := At(f, a, b, c);
      AtInChunk(f, a, b, c);
      var v := Cell(voxels, p.x, p.y, p.z);
      AddHit(P, culled, voxels, f, a, b, row, c);
      row := ClearLowest(row, 32);
      P := Add(P, v, c, a, b);
    }
  }

  /** The opaque sweep over `b` for one `a`. */
  method BucketLine(P0: Planes, culled: seq<Word>, voxels: seq<Voxel>, f: Face, a: nat) returns (P: Planes)
    requires Culls(culled) && Full(voxels) && a < 32
    requires Bucketed(P0, culled, voxels, f, a * 32 - 1, {})
    ensures Bucketed(P, culled, voxels, f, a * 32 + 31, {})
  {
    P := P0;
    for b := 0 to 32
      invariant Bucketed(P, culled, voxels, f, a * 32 + b - 1, {})
    {
      NextRow(P, culled, voxels, f, a, b);
      P := BucketRow(P, culled, voxels, f, a, b);
    }
  }

  /** Once the sweep has passed every position, a hit is a passed hit. */
  lemma PassedAll(culled: seq<Word>, voxels: seq<Voxel>, f: Face, sel: Option<Voxel>, a: int, b: int, c: int)
    requires |culled| == 6144 && Full(voxels)
    ensures Passed(culled, voxels, f, a, b, c, sel, 1023, {}) <==> Hit(culled, voxels, f, a, b, c, sel)
  {
  }

  /** Layers that hold exactly the hits of face `f` selected by `sel`. */
  ghost predicate LayersExact(L: Layers, culled: seq<Word>, voxels: seq<Voxel>, f: Face, sel: Option<Voxel>)
    requires |culled| == 6144 && Full(voxels)
  {
    (forall c :: c in L ==> c < 32 && Sheet(L[c]))
    && (forall c: int, a: int, b: int :: c in L && 0 <= a < 32 ==>
          (b in L[c][a] <==> Hit(culled, voxels, f, a, b, c, sel)))
    && (forall c: int, a: int, b: int :: Hit(culled, voxels, f, a, b, c, sel) ==> c in L)
  }

  lemma LayersDone(L: Layers, culled: seq<Word>, voxels: seq<Voxel>, f: Face, sel: Option<Voxel>)
    requires Culls(culled) && Full(voxels)
    requires Layered(L, culled, voxels, f, sel, 1023, {})
    ensures LayersExact(L, culled, voxels, f, sel)
  {
    forall c: int, a: int, b: int
      ensures Passed(culled, voxels, f, a, b, c, sel, 1023, {}) <==> Hit(culled, voxels, f, a, b, c, sel)
    {
      PassedAll(culled, voxels, f, sel, a, b, c);
    }
  }

  /** The face's planes hold exactly its hits, per voxel kind. */
  ghost predicate Sorted(P: Planes, culled: seq<Word>, voxels: seq<Voxel>, f: Face)
    requires |culled| == 6144 && Full(voxels)
  {
    (forall v :: v in P ==> LayersExact(P[v], culled, voxels, f, Some(v)))
    && (forall v, c: int, a: int, b: int :: Hit(culled, voxels, f, a, b, c, Some(v)) ==> v in P)
  }

  /** The sorting sweep of `get_vertices_greedy` for one face, over `a` and then `b`. */
  method BucketFace(culled: seq<Word>, voxels: seq<Voxel>, f: Face) returns (P: Planes)
    requires Culls(culled) && Full(voxels)
    ensures Sorted(P, culled, voxels, f)
  {
    P := map[];
    for a := 0 to 32
      invariant Bucketed(P, culled, voxels, f, a * 32 - 1, {})
    {
      P := BucketLine(P, culled, voxels, f, a);
    }
    forall v | v in P ensures LayersExact(P[v], culled, voxels, f, Some(v)) {
      LayersDone(P[v], culled, voxels, f, Some(v));
    }
    forall v, c: int, a: int, b: int | Hit(culled, voxels, f, a, b, c, Some(v)) ensures v in P {
      PassedAll(culled, voxels, f, Some(v), a, b, c);
    }
  }

  /** The inner loop of the water sweep: every set bit `c` of the top-face row at
    * `(a, b)` is filed under depth `c`. */
  method WaterRow(L0: Layers, culled: seq<Word>, voxels: seq<Voxel>, a: nat, b: nat) returns (L: Layers)
    requires Culls(culled) && Full(voxels) && a < 32 && b < 32
    requires Layered(L0, culled, voxels, Top, None, a * 32 + b, culled[Row(Top, a, b)])
    ensures Layered(L, culled, voxels, Top, None, a * 32 + b, {})
  {
    L := L0;
    var row := culled[Row(Top, a, b)];
    while row != {}
      invariant row <= culled[Row(Top, a, b)]
      invariant Layered(L, culled, voxels, Top, None, a * 32 + b, row)
      decreases |row|
    {
      assert Fits(row, 32);
      ZeroIff(row, 32);
      var c := TrailingZeros(row, 32);
      LayerAdd(L, culled, voxels, Top, None, a, b, row, c);
      row := ClearLowest(row, 32);
      L := AddLayer(L, c, a, b);
    }
  }

  /** The water sweep over `b` for one `a`. */
  method WaterLine(L0: Layers, culled: seq<Word>, voxels: seq<Voxel>, a: nat) returns (L: Layers)
    requires Culls(culled) && Full(voxels) && a < 32
    requires Layered(L0, culled, voxels, Top, None, a * 32 - 1, {})
    ensures Layered(L, culled, voxels, Top, None, a * 32 + 31, {})
  {
    L := L0;
    for b := 0 to 32
      invariant Layered(L, culled, voxels, Top, None, a * 32 + b - 1, {})
    {
      LayerNextRow(L, culled, voxels, Top, None, a, b);
      L := WaterRow(L, culled, voxels, a, b);
    }
  }

  /** The sorting sweep of `get_vertices_water`: top faces only, by depth alone. */
  method BucketWater(culled: seq<Word>, voxels: seq<Voxel>) returns (L: Layers)
    requires Culls(culled) && Full(voxels)
    ensures LayersExact(L, culled, voxels, Top, None)
  {
    L := map[];
    for a := 0 to 32
      invariant Layered(L, culled, voxels, Top, None, a * 32 - 1, {})
    {
      L := WaterLine(L, culled, voxels, a);
    }
    LayersDone(L, culled, voxels, Top, None);
  }

  // ---------------------------------------------------------------------
  // Meshing the planes
  // ---------------------------------------------------------------------

  /** One call of `greedy_mesh_plane`: the face, voxel kind and depth its plane was
    * filed under, and the quads it peeled off the plane. */
  datatype Block = Block(face: Face, voxel: Voxel, depth: nat, quads: seq<Quad>)

  /** The key a plane is filed under. */
  datatype Tag = Tag(face: Face, voxel: Voxel, depth: nat)

  function TagOf(k: Block): Tag {
    Tag(k.face, k.voxel, k.depth)
  }

  /** Every block's quads lie in the plane and its depth in the chunk. */
  ghost predicate Sound(blocks: seq<Block>) {
    forall k :: 0 <= k < |blocks| ==> AllBounded(blocks[k].quads) && blocks[k].depth < 32
  }

  /** The vertices of the blocks, in order: `mesh.vertices.extend(new_data)` per plane. */
  function Emit(blocks: seq<Block>): (r: seq<nat>)
    requires Sound(blocks)
    decreases |blocks|
  {
    if |blocks| == 0 then []
    else
      var k := blocks[|blocks| - 1];
      Emit(blocks[..|blocks| - 1]) + PlaneVertices(k.quads, k.depth, k.voxel, k.face)
  }

  /** The keys of the blocks. */
  function Tags(blocks: seq<Block>): set<Tag>
    decreases |blocks|
  {
    if |blocks| == 0 then {} else Tags(blocks[..|blocks| - 1]) + {TagOf(blocks[|blocks| - 1])}
  }

  /** No plane is meshed twice. */
  ghost predicate Distinct(blocks: seq<Block>) {
    forall k, l :: 0 <= k < l < |blocks| ==> TagOf(blocks[k]) != TagOf(blocks[l])
  }

  lemma {:induction false} EmitAppend(x: seq<Block>, y: seq<Block>)
    requires Sound(x) && Sound(y)
    ensures Sound(x + y) && Emit(x + y) == Emit(x) + Emit(y)
    decreases |y|
  {
    if |y| > 0 {
      var y' := y[..|y| - 1];
      assert (x + y)[..|x + y| - 1] == x + y';
      EmitAppend(x, y');
    } else {
      assert x + y == x;
    }
  }

  lemma {:induction false} TagsAppend(x: seq<Block>, y: seq<Block>)
    ensures Tags(x + y) == Tags(x) + Tags(y)
    decreases |y|
  {
    if |y| > 0 {
      var y' := y[..|y| - 1];
      assert (x + y)[..|x + y| - 1] == x + y';
      TagsAppend(x, y');
    } else {
      assert x + y == x;
    }
  }

  /** The keys of the blocks are exactly the blocks' keys. */
  lemma {:induction false} TagsHas(blocks: seq<Block>, t: Tag)
    ensures t in Tags(blocks) <==> exists k :: 0 <= k < |blocks| && TagOf(blocks[k]) == t
    decreases |blocks|
  {
    if |blocks| > 0 {
      var n := |blocks| - 1;
      TagsHas(blocks[..n], t);
      if t in Tags(blocks[..n]) {
        var k :| 0 <= k < n && TagOf(blocks[..n][k]) == t;
        assert TagOf(blocks[k]) == t;
      } else if exists k :: 0 <= k < |blocks| && TagOf(blocks[k]) == t {
        var k :| 0 <= k < |blocks| && TagOf(blocks[k]) == t;
        if k < n {
          assert TagOf(blocks[..n][k]) == t;
        }
      }
    }
  }

  lemma DistinctAppend(x: seq<Block>, y: seq<Block>)
    requires Distinct(x) && Distinct(y)
    requires forall k, l :: 0 <= k < |x| && 0 <= l < |y| ==> TagOf(x[k]) != TagOf(y[l])
    ensures Distinct(x + y)
  {
    forall k, l | 0 <= k < l < |x + y| ensures TagOf((x + y)[k]) != TagOf((x + y)[l]) {
      if k < |x| && l >= |x| {
        assert (x + y)[l] == y[l - |x|];
      }
    }
  }

  /** Block `k` is the greedy mesh of `plane`: disjoint quads inside it that cover
    * exactly its set bits, and at least one of them. */
  ghost predicate Meshes(k: Block, plane: seq<Word>) {
    AllBounded(k.quads) && Disjoint(k.quads) && |k.quads| > 0 && |plane| == 32
    && (forall i, j :: 0 <= i < 32 ==> (j in plane[i] <==> Covered(k.quads, i, j)))
    && (forall i, j :: Covered(k.quads, i, j) ==> 0 <= i < 32)
  }

  /** A plane with a set bit yields a quad. */
  lemma SheetHasQuad(plane: seq<Word>, quads: seq<Quad>)
    requires Sheet(plane)
    requires forall i, j :: 0 <= i < 32 ==> (j in plane[i] <==> Covered(quads, i, j))
    ensures |quads| > 0
  {
    var E := EmptyPlane();
    assert exists i :: 0 <= i < 32 && plane[i] != E[i];
    var i :| 0 <= i < 32 && plane[i] != {};
    var j :| j in plane[i];
    assert Covered(quads, i, j);
  }

  /** `greedy_mesh_plane` on a copy of one stored plane. */
  method MeshSheet(plane: seq<Word>, depth: nat, voxel: Voxel, face: Face) returns (vertices: seq<nat>, ghost k: Block)
    requires Sheet(plane) && depth < 32
    ensures k == Block(face, voxel, depth, k.quads) && Meshes(k, plane)
    ensures Sound([k]) && vertices == Emit([k])
  {
    var a := new Word[32](i requires 0 <= i < 32 => plane[i]);
    assert a[..] == plane;
    ghost var quads;
    vertices, quads := GreedyMeshPlane(a, depth, voxel, face);
    SheetHasQuad(plane, quads);
    k := Block(face, voxel, depth, quads);
    assert [k][..0] == [];
  }

  /** The blocks are the meshes of the layers' planes at depths outside `todo`. */
  ghost predicate MeshesLayers(blocks: seq<Block>, L: Layers, f: Face, v: Voxel, todo: set<nat>) {
    forall k :: 0 <= k < |blocks| ==>
      blocks[k].face == f && blocks[k].voxel == v && blocks[k].depth in L && blocks[k].depth !in todo
      && Meshes(blocks[k], L[blocks[k].depth])
  }

  /** The blocks emitted so far for one voxel kind: the planes of the depths no longer
    * in `todo`, each once. */
  ghost predicate LayersSoFar(vertices: seq<nat>, blocks: seq<Block>, L: Layers, f: Face, v: Voxel, todo: set<nat>) {
    Sound(blocks) && vertices == Emit(blocks) && Distinct(blocks)
    && (forall c :: c in L && c !in todo ==> Tag(f, v, c) in Tags(blocks))
    && MeshesLayers(blocks, L, f, v, todo)
  }

  lemma LayersStep(vertices: seq<nat>, blocks: seq<Block>, L: Layers, f: Face, v: Voxel, todo: set<nat>,
                   c: nat, data: seq<nat>, k: Block)
    requires LayersSoFar(vertices, blocks, L, f, v, todo) && c in todo && c in L
    requires k == Block(f, v, c, k.quads) && Meshes(k, L[c]) && Sound([k]) && data == Emit([k])
    ensures LayersSoFar(vertices + data, blocks + [k], L, f, v, todo - {c})
  {
    TagsAppend(blocks, [k]);
    assert Tags([k]) == {Tag(f, v, c)} by {
      assert [k][..0] == [];
    }
    DistinctAppend(blocks, [k]);
    EmitAppend(blocks, [k]);
  }

  /** `for (&axis_pos, plane) in planes { ... greedy_mesh_plane(plane, axis_pos, voxel, face) ... }`:
    * the depths are visited in an unspecified order; each plane yields one block. */
  method EmitLayers(L: Layers, v: Voxel, f: Face) returns (vertices: seq<nat>, ghost blocks: seq<Block>)
    requires forall c :: c in L ==> c < 32 && Sheet(L[c])
    ensures Sound(blocks) && vertices == Emit(blocks) && Distinct(blocks)
    ensures forall c :: c in L ==> Tag(f, v, c) in Tags(blocks)
    ensures MeshesLayers(blocks, L, f, v, {})
  {
    vertices, blocks := [], [];
    var todo := L.Keys;
    while todo != {}
      invariant todo <= L.Keys
      invariant LayersSoFar(vertices, blocks, L, f, v, todo)
      decreases |todo|
    {
      var c :| c in todo;
      var data, k := MeshSheet(L[c], c, v, f);
      LayersStep(vertices, blocks, L, f, v, todo, c, data, k);
      vertices, blocks := vertices + data, blocks + [k];
      todo := todo - {c};
    }
  }

  /** The blocks are the meshes of one face's planes, for voxel kinds outside `todo`. */
  ghost predicate MeshesPlanes(blocks: seq<Block>, P: Planes, f: Face, todo: set<Voxel>) {
    forall k :: 0 <= k < |blocks| ==>
      blocks[k].face == f && blocks[k].voxel in P && blocks[k].voxel !in todo
      && blocks[k].depth in P[blocks[k].voxel]
      && Meshes(blocks[k], P[blocks[k].voxel][blocks[k].depth])
  }

  /** The blocks emitted so far for one face: the planes of the voxel kinds no longer
    * in `todo`, each once. */
  ghost predicate PlanesSoFar(vertices: seq<nat>, blocks: seq<Block>, P: Planes, f: Face, todo: set<Voxel>) {
    Sound(blocks) && vertices == Emit(blocks) && Distinct(blocks)
    && (forall v, c :: v in P && v !in todo && c in P[v] ==> Tag(f, v, c) in Tags(blocks))
    && MeshesPlanes(blocks, P, f, todo)
  }

  lemma PlanesStep(vertices: seq<nat>, blocks: seq<Block>, P: Planes, f: Face, todo: set<Voxel>,
                   v: Voxel, data: seq<nat>, more: seq<Block>)
    requires PlanesSoFar(vertices, blocks, P, f, todo) && v in todo && v in P
    requires Sound(more) && data == Emit(more) && Distinct(more)
    requires forall c :: c in P[v] ==> Tag(f, v, c) in Tags(more)
    requires MeshesLayers(more, P[v], f, v, {})
    ensures PlanesSoFar(vertices + data, blocks + more, P, f, todo - {v})
  {
    TagsAppend(blocks, more);
    DistinctAppend(blocks, more);
    EmitAppend(blocks, more);
  }

  /** `for (&voxel_id, planes) in &mut greedy_meshing_planes[face] { ... }`: the voxel
    * kinds are visited in an unspecified order. */
  method EmitPlanes(P: Planes, f: Face) returns (vertices: seq<nat>, ghost blocks: seq<Block>)
    requires forall v, c :: v in P && c in P[v] ==> c < 32 && Sheet(P[v][c])
    ensures Sound(blocks) && vertices == Emit(blocks) && Distinct(blocks)
    ensures forall v, c :: v in P && c in P[v] ==> Tag(f, v, c) in Tags(blocks)
    ensures MeshesPlanes(blocks, P, f, {})
  {
    vertices, blocks := [], [];
    var todo := P.Keys;
    while todo != {}
      invariant todo <= P.Keys
      invariant PlanesSoFar(vertices, blocks, P, f, todo)
      decreases |todo|
    {
      var v :| v in todo;
      var data, more := EmitLayers(P[v], v, f);
      PlanesStep(vertices, blocks, P, f, todo, v, data, more);
      vertices, blocks := vertices + data, blocks + more;
      todo := todo - {v};
    }
  }

  // ---------------------------------------------------------------------
  // The two passes
  // ---------------------------------------------------------------------

  /** The opaque pass' culled words. */
  ghost function CullAll(masks: seq<Word>): (r: seq<Word>)
    requires |masks| == 3072
    ensures Culls(r)
  {
    seq(6144, k requires 0 <= k < 6144 => Culled(masks, k))
  }

  /** The water pass' culled words. */
  ghost function WaterAll(masks: seq<Word>): (r: seq<Word>)
    requires |masks| == 3072
    ensures Culls(r)
  {
    seq(6144, k requires 0 <= k < 6144 => WaterCulled(masks, k))
  }

  /** Block `k` is the greedy mesh of the plane of the hits selected by `sel` for its
    * face and depth: disjoint quads inside the plane covering exactly those hits, and
    * at least one quad. */
  ghost predicate Exact(k: Block, culled: seq<Word>, voxels: seq<Voxel>, sel: Option<Voxel>)
    requires |culled| == 6144 && Full(voxels)
  {
    AllBounded(k.quads) && Disjoint(k.quads) && |k.quads| > 0 && k.depth < 32
    && forall i, j :: Covered(k.quads, i, j) <==> Hit(culled, voxels, k.face, i, j, k.depth, sel)
  }

  /** The blocks of one face's planes are exact meshes, and every hit has its block. */
  lemma FaceExact(P: Planes, culled: seq<Word>, voxels: seq<Voxel>, f: Face, blocks: seq<Block>)
    requires Culls(culled) && Full(voxels) && Sorted(P, culled, voxels, f)
    requires MeshesPlanes(blocks, P, f, {})
    requires forall v, c :: v in P && c in P[v] ==> Tag(f, v, c) in Tags(blocks)
    ensures forall k :: 0 <= k < |blocks| ==> Exact(blocks[k], culled, voxels, Some(blocks[k].voxel))
    ensures forall v, c: int, a: int, b: int :: Hit(culled, voxels, f, a, b, c, Some(v)) ==> 0 <= c && Tag(f, v, c) in Tags(blocks)
  {
    forall k | 0 <= k < |blocks| ensures Exact(blocks[k], culled, voxels, Some(blocks[k].voxel)) {
      var B := blocks[k];
      LayerExact(P[B.voxel], culled, voxels, f, Some(B.voxel), B);
    }
    forall v, c: int, a: int, b: int | Hit(culled, voxels, f, a, b, c, Some(v))
      ensures 0 <= c && Tag(f, v, c) in Tags(blocks)
    {
      assert LayersExact(P[v], culled, voxels, f, Some(v));
    }
  }

  lemma LayerExact(L: Layers, culled: seq<Word>, voxels: seq<Voxel>, f: Face, sel: Option<Voxel>, B: Block)
    requires Culls(culled) && Full(voxels) && LayersExact(L, culled, voxels, f, sel)
    requires B.face == f && B.depth in L && Meshes(B, L[B.depth])
    ensures Exact(B, culled, voxels, sel)
  {
    forall i, j ensures Covered(B.quads, i, j) <==> Hit(culled, voxels, f, i, j, B.depth, sel) {
      if 0 <= i < 32 {
        assert j in L[B.depth][i] <==> Hit(culled, voxels, f, i, j, B.depth, sel);
      }
    }
  }

  /** What `get_vertices_greedy` has emitted after the faces before `n`. */
  ghost predicate GreedySoFar(vertices: seq<nat>, blocks: seq<Block>, culled: seq<Word>, voxels: seq<Voxel>, n: int)
    requires |culled| == 6144 && Full(voxels)
  {
    Sound(blocks) && vertices == Emit(blocks) && Distinct(blocks)
    && (forall k, l :: 0 <= k < l < |blocks| ==> Id(blocks[k].face) <= Id(blocks[l].face))
    && (forall k :: 0 <= k < |blocks| ==> Id(blocks[k].face) < n && Exact(blocks[k], culled, voxels, Some(blocks[k].voxel)))
    && (forall f, v, c: int, a: int, b: int :: Id(f) < n && Hit(culled, voxels, f, a, b, c, Some(v)) ==>
          0 <= c && Tag(f, v, c) in Tags(blocks))
  }

  lemma GreedyStep(vertices: seq<nat>, blocks: seq<Block>, culled: seq<Word>, voxels: seq<Voxel>, f: Face,
                   P: Planes, data: seq<nat>, more: seq<Block>)
    requires Culls(culled) && Full(voxels) && GreedySoFar(vertices, blocks, culled, voxels, Id(f))
    requires Sorted(P, culled, voxels, f)
    requires Sound(more) && data == Emit(more) && Distinct(more)
    requires forall v, c :: v in P && c in P[v] ==> Tag(f, v, c) in Tags(more)
    requires MeshesPlanes(more, P, f, {})
    ensures GreedySoFar(vertices + data, blocks + more, culled, voxels, Id(f) + 1)
  {
    FaceExact(P, culled, voxels, f, more);
    TagsAppend(blocks, more);
    DistinctAppend(blocks, more);
    EmitAppend(blocks, more);
    GreedyOrder(blocks, more, culled, voxels, f);
    GreedyHits(blocks, more, culled, voxels, f);
  }

  lemma GreedyOrder(blocks: seq<Block>, more: seq<Block>, culled: seq<Word>, voxels: seq<Voxel>, f: Face)
    requires Culls(culled) && Full(voxels)
    requires forall k, l :: 0 <= k < l < |blocks| ==> Id(blocks[k].face) <= Id(blocks[l].face)
    requires forall k :: 0 <= k < |blocks| ==> Id(blocks[k].face) < Id(f) && Exact(blocks[k], culled, voxels, Some(blocks[k].voxel))
    requires forall k :: 0 <= k < |more| ==> more[k].face == f && Exact(more[k], culled, voxels, Some(more[k].voxel))
    ensures var all := blocks + more;
      (forall k, l :: 0 <= k < l < |all| ==> Id(all[k].face) <= Id(all[l].face))
      && (forall k :: 0 <= k < |all| ==> Id(all[k].face) < Id(f) + 1 && Exact(all[k], culled, voxels, Some(all[k].voxel)))
  {
    var all := blocks + more;
    forall k, l | 0 <= k < l < |all| ensures Id(all[k].face) <= Id(all[l].face) {
      if l >= |blocks| {
        assert all[l] == more[l - |blocks|];
      }
    }
    forall k | 0 <= k < |all| ensures Id(all[k].face) < Id(f) + 1 && Exact(all[k], culled, voxels, Some(all[k].voxel)) {
      if k >= |blocks| {
        assert all[k] == more[k - |blocks|];
      }
    }
  }

  lemma GreedyHits(blocks: seq<Block>, more: seq<Block>, culled: seq<Word>, voxels: seq<Voxel>, f: Face)
    requires Culls(culled) && Full(voxels)
    requires Tags(blocks + more) == Tags(blocks) + Tags(more)
    requires forall f', v, c: int, a: int, b: int :: Id(f') < Id(f) && Hit(culled, voxels, f', a, b, c, Some(v)) ==>
      0 <= c && Tag(f', v, c) in Tags(blocks)
    requires forall v, c: int, a: int, b: int :: Hit(culled, voxels, f, a, b, c, Some(v)) ==> 0 <= c && Tag(f, v, c) in Tags(more)
    ensures forall f', v, c: int, a: int, b: int :: Id(f') < Id(f) + 1 && Hit(culled, voxels, f', a, b, c, Some(v)) ==>
      0 <= c && Tag(f', v, c) in Tags(blocks + more)
  {
    forall f', v, c: int, a: int, b: int | Id(f') < Id(f) + 1 && Hit(culled, voxels, f', a, b, c, Some(v))
      ensures 0 <= c && Tag(f', v, c) in Tags(blocks + more)
    {
      if Id(f') == Id(f) {
        FromIdOfId(f');
        FromIdOfId(f);
      }
    }
  }

  /** `get_vertices_greedy`: cull the masks, sort the culled bits of every face into
    * planes by voxel kind and depth, and mesh every plane, face by face in
    * `Face::iter` order; within a face the planes come in an unspecified order.
    * Every block is the exact mesh of one plane, no plane is meshed twice, and every
    * exposed face of the chunk lands in the block of its plane. */
  method GetVerticesGreedy(voxels: seq<Voxel>, masks: seq<Word>) returns (vertices: seq<nat>, ghost blocks: seq<Block>)
    requires Full(voxels) && |masks| == 3072
    ensures Sound(blocks) && vertices == Emit(blocks) && Distinct(blocks)
    ensures forall k, l :: 0 <= k < l < |blocks| ==> Id(blocks[k].face) <= Id(blocks[l].face)
    ensures forall k :: 0 <= k < |blocks| ==> Exact(blocks[k], CullAll(masks), voxels, Some(blocks[k].voxel))
    ensures forall f, v, c: int, a: int, b: int :: Hit(CullAll(masks), voxels, f, a, b, c, Some(v)) ==>
      0 <= c && Tag(f, v, c) in Tags(blocks)
  {
    var culled := CullMasks(masks);
    assert culled == CullAll(masks);
    var planes: seq<Planes> := [];
    for i := 0 to 6
      invariant |planes| == i
      invariant forall j :: 0 <= j < i ==> Sorted(planes[j], culled, voxels, Iter()[j])
    {
      var P := BucketFace(culled, voxels, Iter()[i]);
      planes := planes + [P];
    }
    vertices, blocks := [], [];
    for i := 0 to 6
      invariant GreedySoFar(vertices, blocks, culled, voxels, i)
    {
      var f := Iter()[i];
      var P := planes[i];
      assert forall v, c :: v in P && c in P[v] ==> c < 32 && Sheet(P[v][c]) by {
        assert forall v :: v in P ==> LayersExact(P[v], culled, voxels, f, Some(v));
      }
      var data, more := EmitPlanes(P, f);
      GreedyStep(vertices, blocks, culled, voxels, f, P, data, more);
      vertices, blocks := vertices + data, blocks + more;
    }
    forall f, v, c: int, a: int, b: int | Hit(culled, voxels, f, a, b, c, Some(v))
      ensures 0 <= c && Tag(f, v, c) in Tags(blocks)
    {
      assert Id(f) < 6;
    }
  }

  /** `get_vertices_water`: cull the first third of the masks to the left, sort the
    * culled bits of the top face into planes by depth, and mesh each plane as `WATER`
    * facing `Top`, in an unspecified order. */
  method GetVerticesWater(voxels: seq<Voxel>, masks: seq<Word>) returns (vertices: seq<nat>, ghost blocks: seq<Block>)
    requires Full(voxels) && |masks| == 3072
    ensures Sound(blocks) && vertices == Emit(blocks) && Distinct(blocks)
    ensures forall k :: 0 <= k < |blocks| ==>
      blocks[k].face == Top && blocks[k].voxel == WATER && Exact(blocks[k], WaterAll(masks), voxels, None)
    ensures forall c: int, a: int, b: int :: Hit(WaterAll(masks), voxels, Top, a, b, c, None) ==>
      0 <= c && Tag(Top, WATER, c) in Tags(blocks)
  {
    var culled := CullWater(masks);
    assert culled == WaterAll(masks);
    var L := BucketWater(culled, voxels);
    vertices, blocks := EmitLayers(L, WATER, Top);
    forall k | 0 <= k < |blocks| ensures Exact(blocks[k], culled, voxels, None) {
      LayerExact(L, culled, voxels, Top, None, blocks[k]);
    }
  }

  // ---------------------------------------------------------------------
  // `get_mesh`
  // ---------------------------------------------------------------------

  /** The opaque pass' condition. */
  predicate Opaque(v: Voxel) {
    v != EMPTY && v != WATER
  }

  /** The water pass' condition. */
  predicate IsWater(v: Voxel) {
    v == WATER
  }

  /** Face `f` of the in-chunk voxel at plane coordinates `(a, b)` and depth `c` is
    * exposed for the pass of `cond`. */
  ghost predicate Shows(voxels: seq<Voxel>, cl: Cluster, cond: Voxel -> bool, f: Face, a: int, b: int, c: int)
    requires Full(voxels) && Valid(cl)
  {
    0 <= a < 32 && 0 <= b < 32 && 0 <= c < 32
    && (AtInChunk(f, a, b, c); Exposed(voxels, cl, cond, f, At(f, a, b, c)))
  }

  /** Block `k` greedily meshes exactly the exposed faces of its plane (of its voxel
    * kind when `sel` names one), with disjoint quads and at least one quad. */
  ghost predicate Draws(k: Block, voxels: seq<Voxel>, cl: Cluster, cond: Voxel -> bool, sel: Option<Voxel>)
    requires Full(voxels) && Valid(cl)
  {
    AllBounded(k.quads) && Disjoint(k.quads) && |k.quads| > 0 && k.depth < 32
    && forall i, j :: Covered(k.quads, i, j) <==>
      Shows(voxels, cl, cond, k.face, i, j, k.depth) && (sel.Some? ==> VoxelAt(voxels, k.face, i, j, k.depth) == sel.value)
  }

  /** A culled bit of the opaque pass is an exposed face. */
  lemma HitShows(masks: seq<Word>, voxels: seq<Voxel>, cl: Cluster, cond: Voxel -> bool,
                 f: Face, a: int, b: int, c: int, sel: Option<Voxel>)
    requires Full(voxels) && Valid(cl) && MaskMeaning(masks, voxels, cl, cond)
    ensures Hit(CullAll(masks), voxels, f, a, b, c, sel) <==>
      Shows(voxels, cl, cond, f, a, b, c) && (sel.Some? ==> VoxelAt(voxels, f, a, b, c) == sel.value)
  {
    if 0 <= a < 32 && 0 <= b < 32 && 0 <= c < 32 {
      CulledExposed(masks, voxels, cl, cond, f, a, b, c);
    }
  }

  /** A culled bit of the water pass is an exposed top face. */
  lemma WaterHitShows(masks: seq<Word>, voxels: seq<Voxel>, cl: Cluster, cond: Voxel -> bool, a: int, b: int, c: int)
    requires Full(voxels) && Valid(cl) && MaskMeaning(masks, voxels, cl, cond)
    ensures Hit(WaterAll(masks), voxels, Top, a, b, c, None) <==> Shows(voxels, cl, cond, Top, a, b, c)
  {
    if 0 <= a < 32 && 0 <= b < 32 && 0 <= c < 32 {
      var k := Row(Top, a, b);
      RowParts(Top, a, b);
      assert WaterAll(masks)[k] == Culled(masks, k);
      CulledExposed(masks, voxels, cl, cond, Top, a, b, c);
    }
  }

  lemma ExactDraws(k: Block, masks: seq<Word>, voxels: seq<Voxel>, cl: Cluster, cond: Voxel -> bool,
                   culled: seq<Word>, sel: Option<Voxel>)
    requires Full(voxels) && Valid(cl) && MaskMeaning(masks, voxels, cl, cond)
    requires culled == CullAll(masks) || (culled == WaterAll(masks) && k.face == Top && sel.None?)
    requires Exact(k, culled, voxels, sel)
    ensures Draws(k, voxels, cl, cond, sel)
  {
    forall i, j ensures Covered(k.quads, i, j) <==>
      Shows(voxels, cl, cond, k.face, i, j, k.depth) && (sel.Some? ==> VoxelAt(voxels, k.face, i, j, k.depth) == sel.value)
    {
      if culled == CullAll(masks) {
        HitShows(masks, voxels, cl, cond, k.face, i, j, k.depth, sel);
      } else {
        WaterHitShows(masks, voxels, cl, cond, i, j, k.depth);
      }
    }
  }

  /** Every vertex of a list of blocks decodes to the face and voxel id of one of them. */
  lemma {:induction false} EmitDecodes(blocks: seq<Block>, n: nat)
    requires Sound(blocks) && n < |Emit(blocks)|
    ensures exists k :: (0 <= k < |blocks|
      && UnpackData(Emit(blocks)[n]).faceId == Id(blocks[k].face)
      && UnpackData(Emit(blocks)[n]).voxelId == VoxelId(blocks[k].voxel))
    decreases |blocks|
  {
    var init := blocks[..|blocks| - 1];
    var last := blocks[|blocks| - 1];
    assert Sound(init);
    var m := |Emit(init)|;
    if n < m {
      EmitDecodes(init, n);
      var k :| 0 <= k < |init| && UnpackData(Emit(init)[n]).faceId == Id(init[k].face)
        && UnpackData(Emit(init)[n]).voxelId == VoxelId(init[k].voxel);
      assert blocks[k] == init[k];
    } else {
      var q, i := (n - m) / 6, (n - m) % 6;
      PlaneVerticesAt(last.quads, last.depth, last.voxel, last.face, q, i);
      QuadVertexDecodes(last.quads[q], last.depth, last.voxel, last.face, i);
      assert Emit(blocks)[n] == PlaneVertices(last.quads, last.depth, last.voxel, last.face)[6 * q + i];
      assert 0 <= |blocks| - 1 < |blocks|;
    }
  }

  /** An opaque block is drawn in its own voxel kind, so that kind passes the condition. */
  lemma DrawnKind(k: Block, voxels: seq<Voxel>, cl: Cluster, cond: Voxel -> bool)
    requires Full(voxels) && Valid(cl) && Draws(k, voxels, cl, cond, Some(k.voxel))
    ensures cond(k.voxel)
  {
    var q := k.quads[0];
    assert InQuad(k.quads[0], q.x0, q.y0);
    assert Covered(k.quads, q.x0, q.y0);
    assert Shows(voxels, cl, cond, k.face, q.x0, q.y0, k.depth);
    var p := At(k.face, q.x0, q.y0, k.depth);
    assert VoxelAt(voxels, k.face, q.x0, q.y0, k.depth) == k.voxel;
    assert Cell(voxels, p.x, p.y, p.z) == k.voxel;
  }

  /** `Chunk::get_mesh`: the opaque pass (every voxel but `EMPTY` and `WATER`), then the
    * water pass, over the chunk's voxels and its neighbour cluster. Every block of the
    * opaque pass meshes exactly the exposed faces of one voxel kind on one plane, every
    * block of the water pass exactly the exposed top faces of water on one plane; no
    * plane is meshed twice and every exposed face belongs to a block. The opaque
    * vertices come first, and every water vertex decodes as a top face of `WATER`. */
  method GetMesh(voxels: seq<Voxel>, cl: Cluster) returns (vertices: seq<nat>, ghost solids: seq<Block>, ghost water: seq<Block>)
    requires Full(voxels) && Valid(cl)
    ensures Sound(solids) && Sound(water) && vertices == Emit(solids) + Emit(water)
    ensures Distinct(solids) && Distinct(water)
    ensures forall k, l :: 0 <= k < l < |solids| ==> Id(solids[k].face) <= Id(solids[l].face)
    ensures forall k :: 0 <= k < |solids| ==> Draws(solids[k], voxels, cl, Opaque, Some(solids[k].voxel)) && Opaque(solids[k].voxel)
    ensures forall k :: 0 <= k < |water| ==>
      water[k].face == Top && water[k].voxel == WATER && Draws(water[k], voxels, cl, IsWater, None)
    ensures forall f, a, b, c :: Shows(voxels, cl, Opaque, f, a, b, c) ==> Tag(f, VoxelAt(voxels, f, a, b, c), c) in Tags(solids)
    ensures forall a, b, c :: Shows(voxels, cl, IsWater, Top, a, b, c) ==> Tag(Top, WATER, c) in Tags(water)
    ensures forall n :: 0 <= n < |Emit(solids)| ==>
      UnpackData(vertices[n]).voxelId != VoxelId(EMPTY) && UnpackData(vertices[n]).voxelId != VoxelId(WATER)
    ensures forall n :: |Emit(solids)| <= n < |vertices| ==>
      UnpackData(vertices[n]).faceId == Id(Top) && UnpackData(vertices[n]).voxelId == VoxelId(WATER)
  {
    var solid := BuildMasks(voxels, cl, Opaque);
    assert MaskMeaning(solid, voxels, cl, Opaque);
    var general;
    general, solids := GetVerticesGreedy(voxels, solid);
    var liquid := BuildMasks(voxels, cl, IsWater);
    assert MaskMeaning(liquid, voxels, cl, IsWater);
    var data;
    data, water := GetVerticesWater(voxels, liquid);
    vertices := general + data;
    OpaqueMeaning(solid, voxels, cl, solids);
    WaterMeaning(liquid, voxels, cl, water);
  }

  lemma OpaqueMeaning(masks: seq<Word>, voxels: seq<Voxel>, cl: Cluster, blocks: seq<Block>)
    requires Full(voxels) && Valid(cl) && MaskMeaning(masks, voxels, cl, Opaque) && Sound(blocks)
    requires forall k :: 0 <= k < |blocks| ==> Exact(blocks[k], CullAll(masks), voxels, Some(blocks[k].voxel))
    requires forall f, v, c: int, a: int, b: int :: Hit(CullAll(masks), voxels, f, a, b, c, Some(v)) ==>
      0 <= c && Tag(f, v, c) in Tags(blocks)
    ensures forall k :: 0 <= k < |blocks| ==> Draws(blocks[k], voxels, cl, Opaque, Some(blocks[k].voxel)) && Opaque(blocks[k].voxel)
    ensures forall f, a, b, c :: Shows(voxels, cl, Opaque, f, a, b, c) ==> Tag(f, VoxelAt(voxels, f, a, b, c), c) in Tags(blocks)
    ensures forall n :: 0 <= n < |Emit(blocks)| ==>
      UnpackData(Emit(blocks)[n]).voxelId != VoxelId(EMPTY) && UnpackData(Emit(blocks)[n]).voxelId != VoxelId(WATER)
  {
    forall k | 0 <= k < |blocks| ensures Draws(blocks[k], voxels, cl, Opaque, Some(blocks[k].voxel)) && Opaque(blocks[k].voxel) {
      ExactDraws(blocks[k], masks, voxels, cl, Opaque, CullAll(masks), Some(blocks[k].voxel));
      DrawnKind(blocks[k], voxels, cl, Opaque);
    }
    forall f, a, b, c | Shows(voxels, cl, Opaque, f, a, b, c) ensures Tag(f, VoxelAt(voxels, f, a, b, c), c) in Tags(blocks) {
      HitShows(masks, voxels, cl, Opaque, f, a, b, c, Some(VoxelAt(voxels, f, a, b, c)));
    }
    forall n | 0 <= n < |Emit(blocks)|
      ensures UnpackData(Emit(blocks)[n]).voxelId != VoxelId(EMPTY) && UnpackData(Emit(blocks)[n]).voxelId != VoxelId(WATER)
    {
      EmitDecodes(blocks, n);
      var k :| 0 <= k < |blocks| && UnpackData(Emit(blocks)[n]).voxelId == VoxelId(blocks[k].voxel);
      VoxelIdRoundTrip(blocks[k].voxel);
      VoxelIdRoundTrip(EMPTY);
      VoxelIdRoundTrip(WATER);
    }
  }

  lemma WaterMeaning(masks: seq<Word>, voxels: seq<Voxel>, cl: Cluster, blocks: seq<Block>)
    requires Full(voxels) && Valid(cl) && MaskMeaning(masks, voxels, cl, IsWater) && Sound(blocks)
    requires forall k :: 0 <= k < |blocks| ==>
      blocks[k].face == Top && blocks[k].voxel == WATER && Exact(blocks[k], WaterAll(masks), voxels, None)
    requires forall c: int, a: int, b: int :: Hit(WaterAll(masks), voxels, Top, a, b, c, None) ==>
      0 <= c && Tag(Top, WATER, c) in Tags(blocks)
    ensures forall k :: 0 <= k < |blocks| ==> Draws(blocks[k], voxels, cl, IsWater, None)
    ensures forall a, b, c :: Shows(voxels, cl, IsWater, Top, a, b, c) ==> Tag(Top, WATER, c) in Tags(blocks)
    ensures forall n :: 0 <= n < |Emit(blocks)| ==>
      UnpackData(Emit(blocks)[n]).faceId == Id(Top) && UnpackData(Emit(blocks)[n]).voxelId == VoxelId(WATER)
  {
    forall k | 0 <= k < |blocks| ensures Draws(blocks[k], voxels, cl, IsWater, None) {
      ExactDraws(blocks[k], masks, voxels, cl, IsWater, WaterAll(masks), None);
    }
    forall a, b, c | Shows(voxels, cl, IsWater, Top, a, b, c) ensures Tag(Top, WATER, c) in Tags(blocks) {
      WaterHitShows(masks, voxels, cl, IsWater, a, b, c);
    }
    forall n | 0 <= n < |Emit(blocks)|
      ensures UnpackData(Emit(blocks)[n]).faceId == Id(Top) && UnpackData(Emit(blocks)[n]).voxelId == VoxelId(WATER)
    {
      EmitDecodes(blocks, n);
    }
  }
}
