/**
 * The greedy mesher for one 32 x 32 plane of exposed faces: column `i` of the
 * plane is a 32-bit word whose bit `j` marks an exposed face at plane position
 * `(i, j)`. Maximal vertical runs are peeled off column by column, each run is
 * widened across the following columns that hold exactly the same run, the
 * covered bits are cleared in place, and every quad becomes six packed vertices.
 */
module Greedy {
  import opened Settings
  import opened Words
  import opened Faces
  import opened Packing

  /** A quad `[x0, x1, y0, y1]`: columns `x0 .. x1 - 1`, rows `y0 .. y1 - 1`. */
  datatype Quad = Quad(x0: nat, x1: nat, y0: nat, y1: nat)

  predicate InQuad(q: Quad, i: int, j: int) {
    q.x0 <= i < q.x1 && q.y0 <= j < q.y1
  }

  /** A non-empty quad inside the plane. */
  predicate Bounded(q: Quad) {
    q.x0 < q.x1 <= 32 && q.y0 < q.y1 <= 32
  }

  ghost predicate AllBounded(quads: seq<Quad>) {
    forall k :: 0 <= k < |quads| ==> Bounded(quads[k])
  }

  ghost predicate Covered(quads: seq<Quad>, i: int, j: int) {
    exists k :: 0 <= k < |quads| && InQuad(quads[k], i, j)
  }

  /** No plane position lies in two quads. */
  ghost predicate Disjoint(quads: seq<Quad>) {
    forall k, l, i, j :: 0 <= k < l < |quads| && InQuad(quads[k], i, j) ==> !InQuad(quads[l], i, j)
  }

  ghost predicate Plane(p: seq<Word>) {
    |p| == 32 && forall i :: 0 <= i < 32 ==> Fits(p[i], 32)
  }

  /** The current plane is the original one with some bits cleared. */
  ghost predicate Shrunk(p0: seq<Word>, cur: seq<Word>)
    requires Plane(p0) && |cur| == 32
  {
    forall i :: 0 <= i < 32 ==> cur[i] <= p0[i]
  }

  /** Every quad covers bits that were set and have been cleared. */
  ghost predicate Claimed(p0: seq<Word>, cur: seq<Word>, quads: seq<Quad>)
    requires |p0| == 32 && |cur| == 32
  {
    forall k: int, i: int, j: int :: 0 <= k < |quads| && InQuad(quads[k], i, j) ==> Taken(p0, cur, i, j)
  }

  /** Position `(i, j)` was set in `p0` and is clear in `cur`. */
  ghost predicate Taken(p0: seq<Word>, cur: seq<Word>, i: int, j: int)
    requires |p0| == 32 && |cur| == 32
  {
    0 <= i < 32 && j in p0[i] && j !in cur[i]
  }

  /** Every cleared bit is covered by some quad. */
  ghost predicate Accounted(p0: seq<Word>, cur: seq<Word>, quads: seq<Quad>)
    requires |p0| == 32 && |cur| == 32
  {
    forall i: int, j: int :: 0 <= i < 32 && j in p0[i] && j !in cur[i] ==> Covered(quads, i, j)
  }

  /** What the peeling loop keeps: the quads found so far are bounded, disjoint and
    * cover exactly the bits cleared from the original plane `p0`. */
  ghost predicate Progress(p0: seq<Word>, cur: seq<Word>, quads: seq<Quad>) {
    Plane(p0) && |cur| == 32 && Shrunk(p0, cur) && AllBounded(quads) && Disjoint(quads)
    && Claimed(p0, cur, quads) && Accounted(p0, cur, quads)
  }

  /** The plane with the bits of `m` cleared from columns `lo .. hi - 1`. */
  function ClearColumns(p: seq<Word>, lo: nat, hi: nat, m: Word): (r: seq<Word>)
    requires |p| == 32
    ensures |r| == 32
    ensures forall i :: 0 <= i < 32 ==> r[i] == (if lo <= i < hi then p[i] - m else p[i])
  {
    seq(32, i requires 0 <= i < 32 => if lo <= i < hi then p[i] - m else p[i])
  }

  /** Clearing the first column, then the following ones. */
  lemma ClearColumnsFirst(p: seq<Word>, lo: nat, hi: nat, m: Word)
    requires |p| == 32 && lo < hi <= 32
    ensures ClearColumns(p[lo := p[lo] - m], lo + 1, hi, m) == ClearColumns(p, lo, hi, m)
  {
  }

  /** Clearing one more column. */
  lemma ClearColumnsStep(p: seq<Word>, lo: nat, hi: nat, m: Word)
    requires |p| == 32 && lo <= hi < 32
    ensures ClearColumns(p, lo, hi + 1, m) == ClearColumns(p, lo, hi, m)[hi := p[hi] - m]
  {
  }

  lemma CoveredAppend(quads: seq<Quad>, q: Quad, i: int, j: int)
    requires Covered(quads, i, j) || InQuad(q, i, j)
    ensures Covered(quads + [q], i, j)
  {
    if InQuad(q, i, j) {
      assert (quads + [q])[|quads|] == q;
    } else {
      var k :| 0 <= k < |quads| && InQuad(quads[k], i, j);
      assert (quads + [q])[k] == quads[k];
    }
  }

  /** Taking a bounded quad whose cells are all still set, and clearing them, keeps
    * the loop's invariant. */
  lemma AddQuad(p0: seq<Word>, cur: seq<Word>, next: seq<Word>, quads: seq<Quad>, q: Quad)
    requires Progress(p0, cur, quads) && Bounded(q) && |next| == 32
    requires forall i, j :: InQuad(q, i, j) ==> 0 <= i < 32 && j in cur[i]
    requires next == ClearColumns(cur, q.x0, q.x1, Range(q.y0, q.y1))
    ensures Progress(p0, next, quads + [q])
  {
    var qs := quads + [q];
    assert forall k :: 0 <= k < |quads| ==> qs[k] == quads[k];
    assert qs[|quads|] == q;
    assert Shrunk(p0, next);
    forall k: int, i: int, j: int | 0 <= k < |qs| && InQuad(qs[k], i, j)
      ensures Taken(p0, next, i, j)
    {
      if k < |quads| {
        assert InQuad(quads[k], i, j) && Taken(p0, cur, i, j);
        assert next[i] <= cur[i];
      } else {
        assert InQuad(q, i, j) && j in Range(q.y0, q.y1);
        assert next[i] == cur[i] - Range(q.y0, q.y1);
      }
    }
    assert Claimed(p0, next, qs);
    assert Accounted(p0, next, qs) by {
      forall i: int, j: int | 0 <= i < 32 && j in p0[i] && j !in next[i]
        ensures Covered(qs, i, j)
      {
        CoveredAppend(quads, q, i, j);
      }
    }
    assert Disjoint(qs) by {
      forall k, l, i, j | 0 <= k < l < |qs| && InQuad(qs[k], i, j)
        ensures !InQuad(qs[l], i, j)
      {
        assert InQuad(quads[k], i, j);
        if l == |quads| {
          assert Taken(p0, cur, i, j);
          assert j !in cur[i];
        } else {
          assert qs[l] == quads[l];
        }
      }
    }
  }

  /** The starting point: no quads, nothing cleared. */
  lemma StartProgress(p0: seq<Word>)
    requires Plane(p0)
    ensures Progress(p0, p0, [])
  {
  }

  /** With every bit cleared, the quads cover exactly the original plane. */
  lemma ProgressDone(p0: seq<Word>, cur: seq<Word>, quads: seq<Quad>)
    requires Progress(p0, cur, quads)
    requires forall i :: 0 <= i < 32 ==> cur[i] == {}
    ensures forall i, j :: 0 <= i < 32 ==> (j in p0[i] <==> Covered(quads, i, j))
    ensures forall i, j :: Covered(quads, i, j) ==> 0 <= i < 32
  {
    forall i, j | Covered(quads, i, j) ensures 0 <= i < 32 && j in p0[i] {
      var k :| 0 <= k < |quads| && InQuad(quads[k], i, j);
      assert Taken(p0, cur, i, j);
    }
  }

  /** The maximal run of set bits of `w` starting at its lowest set bit `y`:
    * `trailing_ones` of `w >> y`. */
  lemma RunHeight(w: Word, y: nat)
    requires Fits(w, 32) && y < 32 && y in w
    ensures var h := TrailingOnes(Shr(w, y), 32);
      1 <= h <= 32 - y
      && (forall j :: y <= j < y + h ==> j in w)
      && (y + h == 32 || y + h !in w)
  {
    var s := Shr(w, y);
    var h := TrailingOnes(s, 32);
    assert 0 in s;
    var top: nat := h - 1;
    assert top in s;
    forall j | y <= j < y + h ensures j in w {
      var k: nat := j - y;
      assert k in s;
      assert k + y in w;
      assert k + y == j;
    }
    if h < 32 {
      assert h !in s;
    }
  }

  /** The run mask `checked_shl(1, h).map_or(!0, |n| n - 1) << y` is the bits
    * `y .. y + h - 1` when the run ends inside the word. */
  lemma RunMask(h: nat, y: nat)
    requires y + h <= 32
    ensures Shl(LowMask(h, 32), y, 32) == Range(y, y + h)
  {
  }

  /** `w & !m` on 32-bit words is set difference. */
  lemma AndNot(w: Word, m: Word)
    requires Fits(w, 32)
    ensures w * Not(m, 32) == w - m
  {
  }

  /** The run of column `col` starting at its lowest set bit `y`, as the mesher
    * computes it: `height` is `(col >> y).trailing_ones()` and `mask` is
    * `checked_shl(1, height).map_or(!0, |n| n - 1) << y`. The run is maximal. */
  method RunAt(col: Word, y: nat) returns (height: nat, mask: Word)
    requires Fits(col, 32) && y < 32 && y in col
    ensures 1 <= height <= 32 - y && mask == Range(y, y + height)
    ensures forall j :: y <= j < y + height ==> j in col
    ensures y + height == 32 || y + height !in col
  {
    height := TrailingOnes(Shr(col, y), 32);
    RunHeight(col, y);
    mask := Shl(LowMask(height, 32), y, 32);
    RunMask(height, y);
  }

  /** `plane[i] &= !mask`. */
  method ClearBits(plane: array<Word>, i: nat, mask: Word)
    requires plane.Length == 32 && i < 32 && Fits(plane[i], 32)
    modifies plane
    ensures plane[..] == old(plane[..])[i := old(plane[i]) - mask]
  {
    AndNot(plane[i], mask);
    plane[i] := plane[i] * Not(mask, 32);
  }

  /** The body of the peeling loop: the run of column `x` starting at its lowest set
    * bit `y` is cleared, then widened across the following columns that equal the
    * run mask exactly, stopping at column 32. */
  method PeelRun(plane: array<Word>, x: nat, y: nat) returns (q: Quad)
    requires plane.Length == 32 && x < 32 && y < 32 && Plane(plane[..])
    requires y in plane[x]
    modifies plane
    ensures Bounded(q) && q.x0 == x && q.y0 == y
    ensures forall j :: y <= j < q.y1 ==> j in old(plane[..])[x]
    ensures q.y1 == 32 || q.y1 !in old(plane[..])[x]
    ensures forall i :: x < i < q.x1 ==> old(plane[..])[i] == Range(y, q.y1)
    ensures q.x1 == 32 || old(plane[..])[q.x1] != Range(y, q.y1)
    ensures plane[..] == ClearColumns(old(plane[..]), x, q.x1, Range(y, q.y1))
  {
    ghost var p := plane[..];
    assert Fits(plane[x], 32);
    var height, mask := RunAt(plane[x], y);
    ClearBits(plane, x, mask);
    ghost var p1 := plane[..];
    var width := Widen(plane, x, mask);
    ClearColumnsFirst(p, x, x + width, mask);
    assert forall i :: x < i < 32 ==> p1[i] == p[i];
    q := Quad(x, x + width, y, y + height);
  }

  /** The sideways extension: column `x + width` is absorbed, and its copy of the run
    * cleared, only while the run mask is non-zero, `x + width` is a column, and that
    * column equals the mask exactly. */
  method Widen(plane: array<Word>, x: nat, mask: Word) returns (width: nat)
    requires plane.Length == 32 && x < 32
    requires forall i :: x < i < 32 ==> Fits(plane[i], 32)
    modifies plane
    ensures 1 <= width <= 32 - x
    ensures forall i :: x < i < x + width ==> old(plane[..])[i] == mask
    ensures x + width == 32 || mask == {} || old(plane[..])[x + width] != mask
    ensures plane[..] == ClearColumns(old(plane[..]), x + 1, x + width, mask)
  {
    ghost var p := plane[..];
    width := 1;
    while mask != {} && x + width < 32 && mask == plane[x + width]
      invariant 1 <= width <= 32 - x
      invariant forall i :: x < i < x + width ==> p[i] == mask
      invariant plane[..] == ClearColumns(p, x + 1, x + width, mask)
      decreases 32 - width
    {
      ClearColumnsStep(p, x + 1, x + width, mask);
      assert plane[x + width] == p[x + width];
      ClearBits(plane, x + width, mask);
      width := width + 1;
    }
  }

  /** Bits cleared from a plane still fit in 32 bits. */
  lemma ShrunkPlane(p0: seq<Word>, cur: seq<Word>, quads: seq<Quad>)
    requires Progress(p0, cur, quads)
    ensures Plane(cur)
  {
    forall i | 0 <= i < 32 ensures Fits(cur[i], 32) {
      assert cur[i] <= p0[i];
    }
  }

  /** One turn of the inner loop: peel the run at `y`, record its quad, and find the
    * next lowest set bit of the column, which lies above the run. */
  method PeelStep(plane: array<Word>, x: nat, y: nat, ghost p0: seq<Word>, quads: seq<Quad>)
    returns (quads': seq<Quad>, y': nat)
    requires plane.Length == 32 && x < 32 && y < 32 && Progress(p0, plane[..], quads)
    requires forall i :: 0 <= i < x ==> plane[i] == {}
    requires y == TrailingZeros(plane[x], 32)
    modifies plane
    ensures Progress(p0, plane[..], quads')
    ensures forall i :: 0 <= i < x ==> plane[i] == {}
    ensures y < y' <= 32 && y' == TrailingZeros(plane[x], 32)
  {
    ghost var before := plane[..];
    ShrunkPlane(p0, before, quads);
    var q := PeelRun(plane, x, y);
    AddQuad(p0, before, plane[..], quads, q);
    quads' := quads + [q];
    y' := TrailingZeros(plane[x], 32);
    assert y' > y by {
      assert y !in plane[x];
      assert forall j :: j < y ==> j !in plane[x];
    }
  }

  /** The inner loop of `greedy_mesh_plane` for column `x`: runs are peeled from the
    * lowest set bit upwards until the column is clear. Earlier columns stay clear. */
  method PeelColumn(plane: array<Word>, x: nat, ghost p0: seq<Word>, quads: seq<Quad>)
    returns (quads': seq<Quad>)
    requires plane.Length == 32 && x < 32 && Progress(p0, plane[..], quads)
    requires forall i :: 0 <= i < x ==> plane[i] == {}
    modifies plane
    ensures Progress(p0, plane[..], quads')
    ensures forall i :: 0 <= i <= x ==> plane[i] == {}
  {
    quads' := quads;
    var y := TrailingZeros(plane[x], 32);
    while y < 32
      invariant Progress(p0, plane[..], quads')
      invariant forall i :: 0 <= i < x ==> plane[i] == {}
      invariant y <= 32 && y == TrailingZeros(plane[x], 32)
      decreases 32 - y
    {
      quads', y := PeelStep(plane, x, y, p0, quads');
    }
    ShrunkPlane(p0, plane[..], quads');
    assert Fits(plane[x], 32);
    ZeroIff(plane[x], 32);
  }

  /** The quads of a plane, found as `greedy_mesh_plane` finds them, column by column.
    * On return the plane is all zero, and the quads are bounded, pairwise disjoint,
    * and cover exactly the bits the plane held. */
  method PlaneQuads(plane: array<Word>) returns (quads: seq<Quad>)
    requires plane.Length == 32 && forall i :: 0 <= i < 32 ==> Fits(plane[i], 32)
    modifies plane
    ensures forall i :: 0 <= i < 32 ==> plane[i] == {}
    ensures AllBounded(quads) && Disjoint(quads)
    ensures forall i, j :: 0 <= i < 32 ==> (j in old(plane[i]) <==> Covered(quads, i, j))
    ensures forall i, j :: Covered(quads, i, j) ==> 0 <= i < 32
  {
    ghost var p0 := plane[..];
    StartProgress(p0);
    quads := [];
    for x := 0 to 32
      invariant Progress(p0, plane[..], quads)
      invariant forall i :: 0 <= i < x ==> plane[i] == {}
    {
      quads := PeelColumn(plane, x, p0, quads);
    }
    ProgressDone(p0, plane[..], quads);
  }

  /** A vertex position whose coordinates are `u32` values. */
  predicate InU32(p: Pos) {
    0 <= p.x < U32_LIMIT && 0 <= p.y < U32_LIMIT && 0 <= p.z < U32_LIMIT
  }

  /** The six vertex positions of quad `q` on plane `depth` of `face`, in the order
    * the mesher packs them: `u` runs along the plane's columns, `v` along its rows,
    * and the positive faces sit at `depth + 1`. */
  function QuadPositions(q: Quad, depth: nat, face: Face): (r: seq<Pos>)
    requires Bounded(q) && depth + 1 < U32_LIMIT
    ensures |r| == 6 && forall i :: 0 <= i < 6 ==> InU32(r[i])
  {
    var u0, u1, v0, v1 := q.x0, q.x1, q.y0, q.y1;
    var d0, d1 := depth, depth + 1;
    match face
    case Top => [Pos(u0, d1, v1), Pos(u1, d1, v1), Pos(u1, d1, v0), Pos(u1, d1, v0), Pos(u0, d1, v0), Pos(u0, d1, v1)]
    case Bottom => [Pos(u0, d0, v0), Pos(u1, d0, v0), Pos(u1, d0, v1), Pos(u1, d0, v1), Pos(u0, d0, v1), Pos(u0, d0, v0)]
    case Right => [Pos(d1, u0, v1), Pos(d1, u0, v0), Pos(d1, u1, v0), Pos(d1, u1, v0), Pos(d1, u1, v1), Pos(d1, u0, v1)]
    case Left => [Pos(d0, u0, v0), Pos(d0, u0, v1), Pos(d0, u1, v1), Pos(d0, u1, v1), Pos(d0, u1, v0), Pos(d0, u0, v0)]
    case Front => [Pos(u0, v0, d1), Pos(u1, v0, d1), Pos(u1, v1, d1), Pos(u1, v1, d1), Pos(u0, v1, d1), Pos(u0, v0, d1)]
    case Back => [Pos(u1, v0, d0), Pos(u0, v0, d0), Pos(u0, v1, d0), Pos(u0, v1, d0), Pos(u1, v1, d0), Pos(u1, v0, d0)]
  }

  /** `compress_data` of a vertex position. */
  function Pack(p: Pos, face: Face, voxel: Voxel): nat
    requires InU32(p)
  {
    CompressData(p.x, p.y, p.z, face, voxel)
  }

  /** The six packed vertices of a quad: `compress_data` of each position. */
  function QuadVertices(q: Quad, depth: nat, voxel: Voxel, face: Face): (r: seq<nat>)
    requires Bounded(q) && depth + 1 < U32_LIMIT
    ensures |r| == 6
    ensures forall i :: 0 <= i < 6 ==> r[i] == Pack(QuadPositions(q, depth, face)[i], face, voxel)
  {
    var p := QuadPositions(q, depth, face);
    seq(6, i requires 0 <= i < 6 => Pack(p[i], face, voxel))
  }

  /** The voxel position of plane coordinates `(u, v)` at `depth`: the plane of a
    * Top/Bottom face spans x and z, of a Right/Left face y and z, of a Front/Back
    * face x and y. */
  function Place(face: Face, u: int, v: int, d: int): Pos {
    match face
    case Top => Pos(u, d, v)
    case Bottom => Pos(u, d, v)
    case Right => Pos(d, u, v)
    case Left => Pos(d, u, v)
    case Front => Pos(u, v, d)
    case Back => Pos(u, v, d)
  }

  /** Corner `i` of the face, from the unit-cube table `Coords`: stretched over the
    * quad along the plane and lifted to the quad's depth along the face's axis. */
  function Corner(q: Quad, depth: nat, face: Face, i: nat): Pos
    requires i < 6
  {
    var c := Lift(face, Coords(face)[i]);
    Place(face, if c.x == 0 then q.x0 else q.x1, if c.y == 0 then q.y0 else q.y1, depth + c.z)
  }

  /** A cube corner in plane coordinates: `x` along the plane's columns, `y` along
    * its rows, `z` along the face's axis; `Place` is its inverse. */
  function Lift(face: Face, c: Vec3): Pos {
    match face
    case Top => Pos(c.0, c.2, c.1)
    case Bottom => Pos(c.0, c.2, c.1)
    case Right => Pos(c.1, c.2, c.0)
    case Left => Pos(c.1, c.2, c.0)
    case Front => Pos(c.0, c.1, c.2)
    case Back => Pos(c.0, c.1, c.2)
  }

  /** The mesher's per-face vertex lists are the face's corner table, stretched over
    * the quad: vertex `i` sits at corner `i`. */
  lemma QuadPositionsCorners(q: Quad, depth: nat, face: Face, i: nat)
    requires Bounded(q) && depth + 1 < U32_LIMIT && i < 6
    ensures QuadPositions(q, depth, face)[i] == Corner(q, depth, face, i)
  {
    if i == 0 {
    } else if i == 1 {
    } else if i == 2 {
    } else if i == 3 {
    } else if i == 4 {
    } else {
    }
  }

  /** Every vertex of a quad decodes to that corner of the quad, the face's id and the
    * voxel's id. */
  lemma QuadVertexDecodes(q: Quad, depth: nat, voxel: Voxel, face: Face, i: nat)
    requires Bounded(q) && depth < 63 && i < 6
    ensures var c := Corner(q, depth, face, i);
      UnpackData(QuadVertices(q, depth, voxel, face)[i]) == Unpacked(c.x, c.y, c.z, Id(face), VoxelId(voxel))
  {
    QuadPositionsCorners(q, depth, face, i);
    var c := Corner(q, depth, face, i);
    assert 0 <= c.x < 64 && 0 <= c.y < 64 && 0 <= c.z < 64 by {
      CoordsOnFace(face, i);
    }
    UnpackCompress(c.x, c.y, c.z, face, voxel);
  }

  /** A unit quad at depth 0 decodes to exactly the corners of `Coords`. */
  lemma UnitQuadCorners(voxel: Voxel, face: Face, i: nat)
    requires i < 6
    ensures var c := Coords(face)[i];
      UnpackData(QuadVertices(Quad(0, 1, 0, 1), 0, voxel, face)[i]) == Unpacked(c.0, c.1, c.2, Id(face), VoxelId(voxel))
  {
    QuadVertexDecodes(Quad(0, 1, 0, 1), 0, voxel, face, i);
    CoordsOnFace(face, i);
  }

  /** The vertices of a sequence of quads, quad by quad. */
  function PlaneVertices(quads: seq<Quad>, depth: nat, voxel: Voxel, face: Face): (r: seq<nat>)
    requires AllBounded(quads) && depth + 1 < U32_LIMIT
    ensures |r| == 6 * |quads|
  {
    if quads == [] then []
    else
      PlaneVertices(quads[..|quads| - 1], depth, voxel, face)
      + QuadVertices(quads[|quads| - 1], depth, voxel, face)
  }

  /** Vertex `6 k + i` is vertex `i` of quad `k`. */
  lemma {:induction false} PlaneVerticesAt(quads: seq<Quad>, depth: nat, voxel: Voxel, face: Face, k: nat, i: nat)
    requires AllBounded(quads) && depth + 1 < U32_LIMIT && k < |quads| && i < 6
    ensures PlaneVertices(quads, depth, voxel, face)[6 * k + i] == QuadVertices(quads[k], depth, voxel, face)[i]
    decreases |quads|
  {
    var init := quads[..|quads| - 1];
    if k < |quads| - 1 {
      PlaneVerticesAt(init, depth, voxel, face, k, i);
      assert init[k] == quads[k];
    }
  }

  /** `greedy_mesh_plane`: the plane's quads and their vertices. On return every plane
    * word is zero; the quads are bounded, pairwise disjoint and cover exactly the bits
    * the plane held; there are six vertices per quad, in quad order. */
  method GreedyMeshPlane(plane: array<Word>, depth: nat, voxel: Voxel, face: Face)
    returns (vertices: seq<nat>, ghost quads: seq<Quad>)
    requires plane.Length == 32 && forall i :: 0 <= i < 32 ==> Fits(plane[i], 32)
    requires depth + 1 < U32_LIMIT
    modifies plane
    ensures forall i :: 0 <= i < 32 ==> plane[i] == {}
    ensures AllBounded(quads) && Disjoint(quads)
    ensures forall i, j :: 0 <= i < 32 ==> (j in old(plane[i]) <==> Covered(quads, i, j))
    ensures forall i, j :: Covered(quads, i, j) ==> 0 <= i < 32
    ensures vertices == PlaneVertices(quads, depth, voxel, face)
  {
    var qs := PlaneQuads(plane);
    quads := qs;
    vertices := [];
    for k := 0 to |qs|
      invariant vertices == PlaneVertices(qs[..k], depth, voxel, face)
    {
      assert qs[..k + 1][..k] == qs[..k];
      vertices := vertices + QuadVertices(qs[k], depth, voxel, face);
    }
    assert qs[..|qs|] == qs;
  }
}
