/**
 * Face-visibility masks. For a voxel predicate (`condition`), `build_masks` fills
 * 3 x 1024 64-bit column words: group 0 holds the columns along y (indexed by
 * `x + z * 32`), group 1 those along x (indexed by `y + z * 32`), group 2 those
 * along z (indexed by `x + y * 32`). Bit `k + 1` of a column is the predicate on
 * the chunk's voxel at position `k` along the column; bits 0 and 33 are the
 * predicate on the neighbouring chunks' voxels just before and just after the
 * column, read through the cluster.
 */
module Masks {
  import opened Settings
  import opened Words
  import opened Chunks
  import opened Clusters

  /** Position of voxel `(x, y, z)` in the `z`, `y`, `x` visiting order of the first loop. */
  function Visit(x: int, y: int, z: int): int {
    x + y * 32 + z * 1024
  }

  /** The voxel just before (`k == -1`) or just after (`k == 32`) column `(a, b)` of
    * group `g`, as `chunk_cluster.get_voxel` is asked for it. */
  function Probe(c: Cluster, g: int, a: int, b: int, k: int): Voxel
    requires Valid(c)
  {
    if g == 0 then GetVoxel(c, a, k, b)
    else if g == 1 then GetVoxel(c, k, a, b)
    else GetVoxel(c, a, b, k)
  }

  // Invariants of the first loop: the bits of the first `t` visited voxels are set.

  ghost predicate Interior0(m: seq<Word>, voxels: seq<Voxel>, cond: Voxel -> bool, t: int)
    requires |m| == 3072 && Full(voxels)
  {
    forall x, y, z :: InChunk(x, y, z) ==>
      (y + 1 in m[x + z * 32] <==> Visit(x, y, z) < t && cond(Cell(voxels, x, y, z)))
  }

  ghost predicate Interior1(m: seq<Word>, voxels: seq<Voxel>, cond: Voxel -> bool, t: int)
    requires |m| == 3072 && Full(voxels)
  {
    forall x, y, z :: InChunk(x, y, z) ==>
      (x + 1 in m[y + z * 32 + 1024] <==> Visit(x, y, z) < t && cond(Cell(voxels, x, y, z)))
  }

  ghost predicate Interior2(m: seq<Word>, voxels: seq<Voxel>, cond: Voxel -> bool, t: int)
    requires |m| == 3072 && Full(voxels)
  {
    forall x, y, z :: InChunk(x, y, z) ==>
      (z + 1 in m[x + y * 32 + 2048] <==> Visit(x, y, z) < t && cond(Cell(voxels, x, y, z)))
  }

  /** Every set bit lies in `[lo, hi]`. */
  ghost predicate BitsWithin(m: seq<Word>, lo: nat, hi: nat) {
    forall i, j :: 0 <= i < |m| && j in m[i] ==> lo <= j <= hi
  }

  /** The three `|=` of the first loop for voxel `(x, y, z)`. */
  function Mark(m: seq<Word>, voxels: seq<Voxel>, cond: Voxel -> bool, x: int, y: int, z: int): (r: seq<Word>)
    requires |m| == 3072 && Full(voxels) && InChunk(x, y, z)
    ensures |r| == 3072
  {
    if cond(Cell(voxels, x, y, z)) then
      m[x + z * 32 := m[x + z * 32] + {y + 1}]
       [y + z * 32 + 1024 := m[y + z * 32 + 1024] + {x + 1}]
       [x + y * 32 + 2048 := m[x + y * 32 + 2048] + {z + 1}]
    else m
  }

  lemma ColumnInjective(a: int, b: int, a2: int, b2: int)
    requires 0 <= a < 32 && 0 <= b < 32 && 0 <= a2 < 32 && 0 <= b2 < 32
    ensures 0 <= a + b * 32 < 1024
    ensures a + b * 32 == a2 + b2 * 32 <==> a == a2 && b == b2
  {
    if b < b2 {
      assert a + b * 32 < b * 32 + 32 <= b2 * 32 <= a2 + b2 * 32;
    } else if b2 < b {
      assert a2 + b2 * 32 < b2 * 32 + 32 <= b * 32 <= a + b * 32;
    }
  }

  lemma VisitInjective(x: int, y: int, z: int, x2: int, y2: int, z2: int)
    requires InChunk(x, y, z) && InChunk(x2, y2, z2)
    ensures Visit(x, y, z) == Visit(x2, y2, z2) <==> x == x2 && y == y2 && z == z2
  {
    ColumnInjective(x, y, x2, y2);
    if z < z2 {
      assert Visit(x, y, z) < z * 1024 + 1024 <= z2 * 1024 <= Visit(x2, y2, z2);
    } else if z2 < z {
      assert Visit(x2, y2, z2) < z2 * 1024 + 1024 <= z * 1024 <= Visit(x, y, z);
    }
  }

  /** The word at column `i` after `Mark`: the three marked columns lie in three
    * different groups. */
  lemma MarkAt(m: seq<Word>, voxels: seq<Voxel>, cond: Voxel -> bool, x: int, y: int, z: int, i: int)
    requires |m| == 3072 && Full(voxels) && InChunk(x, y, z) && 0 <= i < 3072
    ensures var hit := cond(Cell(voxels, x, y, z));
      Mark(m, voxels, cond, x, y, z)[i] ==
        if hit && i == x + z * 32 then m[i] + {y + 1}
        else if hit && i == y + z * 32 + 1024 then m[i] + {x + 1}
        else if hit && i == x + y * 32 + 2048 then m[i] + {z + 1}
        else m[i]
  {
  }

  lemma MarkInterior0(m: seq<Word>, voxels: seq<Voxel>, cond: Voxel -> bool, x: int, y: int, z: int)
    requires |m| == 3072 && Full(voxels) && InChunk(x, y, z)
    requires Interior0(m, voxels, cond, Visit(x, y, z))
    ensures Interior0(Mark(m, voxels, cond, x, y, z), voxels, cond, Visit(x, y, z) + 1)
  {
    var r := Mark(m, voxels, cond, x, y, z);
    forall x', y', z' | InChunk(x', y', z')
      ensures y' + 1 in r[x' + z' * 32] <==>
        Visit(x', y', z') < Visit(x, y, z) + 1 && cond(Cell(voxels, x', y', z'))
    {
      MarkAt(m, voxels, cond, x, y, z, x' + z' * 32);
      ColumnInjective(x', z', x, z);
      VisitInjective(x', y', z', x, y, z);
    }
  }

  lemma MarkInterior1(m: seq<Word>, voxels: seq<Voxel>, cond: Voxel -> bool, x: int, y: int, z: int)
    requires |m| == 3072 && Full(voxels) && InChunk(x, y, z)
    requires Interior1(m, voxels, cond, Visit(x, y, z))
    ensures Interior1(Mark(m, voxels, cond, x, y, z), voxels, cond, Visit(x, y, z) + 1)
  {
    var r := Mark(m, voxels, cond, x, y, z);
    forall x', y', z' | InChunk(x', y', z')
      ensures x' + 1 in r[y' + z' * 32 + 1024] <==>
        Visit(x', y', z') < Visit(x, y, z) + 1 && cond(Cell(voxels, x', y', z'))
    {
      MarkAt(m, voxels, cond, x, y, z, y' + z' * 32 + 1024);
      ColumnInjective(y', z', y, z);
      VisitInjective(x', y', z', x, y, z);
    }
  }

  lemma MarkInterior2(m: seq<Word>, voxels: seq<Voxel>, cond: Voxel -> bool, x: int, y: int, z: int)
    requires |m| == 3072 && Full(voxels) && InChunk(x, y, z)
    requires Interior2(m, voxels, cond, Visit(x, y, z))
    ensures Interior2(Mark(m, voxels, cond, x, y, z), voxels, cond, Visit(x, y, z) + 1)
  {
    var r := Mark(m, voxels, cond, x, y, z);
    forall x', y', z' | InChunk(x', y', z')
      ensures z' + 1 in r[x' + y' * 32 + 2048] <==>
        Visit(x', y', z') < Visit(x, y, z) + 1 && cond(Cell(voxels, x', y', z'))
    {
      MarkAt(m, voxels, cond, x, y, z, x' + y' * 32 + 2048);
      ColumnInjective(x', y', x, y);
      VisitInjective(x', y', z', x, y, z);
    }
  }

  lemma MarkWithin(m: seq<Word>, voxels: seq<Voxel>, cond: Voxel -> bool, x: int, y: int, z: int)
    requires |m| == 3072 && Full(voxels) && InChunk(x, y, z)
    requires BitsWithin(m, 1, 32)
    ensures BitsWithin(Mark(m, voxels, cond, x, y, z), 1, 32)
  {
  }

  /** The invariant of the first loop for all three groups. */
  ghost predicate Interior(m: seq<Word>, voxels: seq<Voxel>, cond: Voxel -> bool, t: int)
    requires |m| == 3072 && Full(voxels)
  {
    Interior0(m, voxels, cond, t) && Interior1(m, voxels, cond, t) && Interior2(m, voxels, cond, t)
  }

  /** Index of column `(a, b)` of group `g`. */
  function Col(g: int, a: int, b: int): int {
    g * 1024 + a + b * 32
  }

  lemma ColInjective(g: int, a: int, b: int, g2: int, a2: int, b2: int)
    requires 0 <= g < 3 && 0 <= a < 32 && 0 <= b < 32
    requires 0 <= g2 < 3 && 0 <= a2 < 32 && 0 <= b2 < 32
    ensures g * 1024 <= Col(g, a, b) < g * 1024 + 1024
    ensures Col(g, a, b) == Col(g2, a2, b2) <==> g == g2 && a == a2 && b == b2
  {
    ColumnInjective(a, b, a2, b2);
    if g < g2 {
      assert Col(g, a, b) < g * 1024 + 1024 <= g2 * 1024 <= Col(g2, a2, b2);
    } else if g2 < g {
      assert Col(g2, a2, b2) < g2 * 1024 + 1024 <= g * 1024 <= Col(g, a, b);
    }
  }

  // Invariants of the boundary loops: the end bits of the first `s` columns of group `g` are set.

  ghost predicate Ends(m: seq<Word>, c: Cluster, cond: Voxel -> bool, g: int, s: int)
    requires |m| == 3072 && Valid(c) && 0 <= g < 3
  {
    forall a, b :: 0 <= a < 32 && 0 <= b < 32 ==>
      (0 in m[Col(g, a, b)] <==> a + b * 32 < s && cond(Probe(c, g, a, b, -1)))
      && (33 in m[Col(g, a, b)] <==> a + b * 32 < s && cond(Probe(c, g, a, b, 32)))
  }

  /** The two `|=` of a boundary loop for column `(a, b)` of group `g`. */
  function End(m: seq<Word>, c: Cluster, cond: Voxel -> bool, g: int, a: int, b: int): (r: seq<Word>)
    requires |m| == 3072 && Valid(c) && 0 <= g < 3 && 0 <= a < 32 && 0 <= b < 32
    ensures |r| == 3072
  {
    var i := Col(g, a, b);
    var m1 := if cond(Probe(c, g, a, b, -1)) then m[i := m[i] + {0}] else m;
    if cond(Probe(c, g, a, b, 32)) then m1[i := m1[i] + {33}] else m1
  }

  lemma EndAt(m: seq<Word>, c: Cluster, cond: Voxel -> bool, g: int, a: int, b: int, i: int)
    requires |m| == 3072 && Valid(c) && 0 <= g < 3 && 0 <= a < 32 && 0 <= b < 32 && 0 <= i < 3072
    ensures End(m, c, cond, g, a, b)[i] ==
      if i == Col(g, a, b) then
        m[i] + (if cond(Probe(c, g, a, b, -1)) then {0} else {})
             + (if cond(Probe(c, g, a, b, 32)) then {33} else {})
      else m[i]
  {
  }

  lemma EndStep(m: seq<Word>, c: Cluster, cond: Voxel -> bool, g: int, a: int, b: int)
    requires |m| == 3072 && Valid(c) && 0 <= g < 3 && 0 <= a < 32 && 0 <= b < 32
    requires Ends(m, c, cond, g, a + b * 32)
    ensures Ends(End(m, c, cond, g, a, b), c, cond, g, a + b * 32 + 1)
  {
    var r := End(m, c, cond, g, a, b);
    forall a', b' | 0 <= a' < 32 && 0 <= b' < 32
      ensures (0 in r[Col(g, a', b')] <==> a' + b' * 32 < a + b * 32 + 1 && cond(Probe(c, g, a', b', -1)))
        && (33 in r[Col(g, a', b')] <==> a' + b' * 32 < a + b * 32 + 1 && cond(Probe(c, g, a', b', 32)))
    {
      ColInjective(g, a', b', g, a, b);
      EndAt(m, c, cond, g, a, b, Col(g, a', b'));
    }
  }

  lemma EndOther(m: seq<Word>, c: Cluster, cond: Voxel -> bool, g: int, a: int, b: int, g': int, s: int)
    requires |m| == 3072 && Valid(c) && 0 <= g < 3 && 0 <= a < 32 && 0 <= b < 32
    requires 0 <= g' < 3 && g' != g
    requires Ends(m, c, cond, g', s)
    ensures Ends(End(m, c, cond, g, a, b), c, cond, g', s)
  {
    var r := End(m, c, cond, g, a, b);
    forall a', b' | 0 <= a' < 32 && 0 <= b' < 32
      ensures r[Col(g', a', b')] == m[Col(g', a', b')]
    {
      ColInjective(g', a', b', g, a, b);
      EndAt(m, c, cond, g, a, b, Col(g', a', b'));
    }
  }

  lemma EndInterior(m: seq<Word>, voxels: seq<Voxel>, c: Cluster, cond: Voxel -> bool, g: int, a: int, b: int, t: int)
    requires |m| == 3072 && Full(voxels) && Valid(c) && 0 <= g < 3 && 0 <= a < 32 && 0 <= b < 32
    requires Interior(m, voxels, cond, t) && BitsWithin(m, 0, 33)
    ensures Interior(End(m, c, cond, g, a, b), voxels, cond, t)
    ensures BitsWithin(End(m, c, cond, g, a, b), 0, 33)
  {
    var r := End(m, c, cond, g, a, b);
    forall i, j | 0 <= i < 3072 && 1 <= j <= 32
      ensures j in r[i] <==> j in m[i]
    {
      EndAt(m, c, cond, g, a, b, i);
    }
    forall i, j | 0 <= i < 3072 && j in r[i]
      ensures 0 <= j <= 33
    {
      EndAt(m, c, cond, g, a, b, i);
    }
  }

  /** Before the boundary loops no end bit is set. */
  lemma NoEnds(m: seq<Word>, c: Cluster, cond: Voxel -> bool, g: int)
    requires |m| == 3072 && Valid(c) && 0 <= g < 3
    requires BitsWithin(m, 1, 32)
    ensures Ends(m, c, cond, g, 0) && BitsWithin(m, 0, 33)
  {
    forall a, b | 0 <= a < 32 && 0 <= b < 32
      ensures 0 !in m[Col(g, a, b)] && 33 !in m[Col(g, a, b)]
    {
      ColInjective(g, a, b, g, 0, 0);
    }
  }

  lemma EndsSame(m: seq<Word>, m': seq<Word>, c: Cluster, cond: Voxel -> bool, g: int, s: int)
    requires |m| == 3072 && |m'| == 3072 && Valid(c) && 0 <= g < 3
    requires forall i :: g * 1024 <= i < g * 1024 + 1024 ==> m'[i] == m[i]
    requires Ends(m, c, cond, g, s)
    ensures Ends(m', c, cond, g, s)
  {
    forall a, b | 0 <= a < 32 && 0 <= b < 32
      ensures m'[Col(g, a, b)] == m[Col(g, a, b)]
    {
      ColInjective(g, a, b, g, 0, 0);
    }
  }

  /** One boundary loop of `build_masks`: the end bits of every column of group `g`.
    * For group 0 the cluster is probed at `(a, -1, b)` and `(a, 32, b)`, for group 1 at
    * `(-1, a, b)` and `(32, a, b)`, for group 2 at `(a, b, -1)` and `(a, b, 32)`. */
  method BoundaryLoop(m: array<Word>, voxels: seq<Voxel>, c: Cluster, cond: Voxel -> bool, g: int)
    requires m.Length == 3072 && Full(voxels) && Valid(c) && 0 <= g < 3
    requires Interior(m[..], voxels, cond, 32768) && BitsWithin(m[..], 0, 33)
    requires Ends(m[..], c, cond, g, 0)
    modifies m
    ensures Interior(m[..], voxels, cond, 32768) && BitsWithin(m[..], 0, 33)
    ensures Ends(m[..], c, cond, g, 1024)
    ensures forall i :: 0 <= i < 3072 && !(g * 1024 <= i < g * 1024 + 1024) ==> m[i] == old(m[i])
  {
    var b := 0;
    while b < 32
      invariant 0 <= b <= 32
      invariant Interior(m[..], voxels, cond, 32768) && BitsWithin(m[..], 0, 33)
      invariant Ends(m[..], c, cond, g, b * 32)
      invariant forall i :: 0 <= i < 3072 && !(g * 1024 <= i < g * 1024 + 1024) ==> m[i] == old(m[i])
    {
      var a := 0;
      while a < 32
        invariant 0 <= a <= 32
        invariant Interior(m[..], voxels, cond, 32768) && BitsWithin(m[..], 0, 33)
        invariant Ends(m[..], c, cond, g, a + b * 32)
        invariant forall i :: 0 <= i < 3072 && !(g * 1024 <= i < g * 1024 + 1024) ==> m[i] == old(m[i])
      {
        ghost var before := m[..];
        var i := Col(g, a, b);
        if cond(Probe(c, g, a, b, -1)) {
          m[i] := m[i] + {0};
        }
        if cond(Probe(c, g, a, b, 32)) {
          m[i] := m[i] + {33};
        }
        assert m[..] == End(before, c, cond, g, a, b);
        EndStep(before, c, cond, g, a, b);
        EndInterior(before, voxels, c, cond, g, a, b, 32768);
        forall i' | 0 <= i' < 3072 && !(g * 1024 <= i' < g * 1024 + 1024)
          ensures m[i'] == before[i']
        {
          EndAt(before, c, cond, g, a, b, i');
        }
        a := a + 1;
      }
      b := b + 1;
    }
  }

  lemma InteriorComplete(m: seq<Word>, voxels: seq<Voxel>, cond: Voxel -> bool)
    requires |m| == 3072 && Full(voxels) && Interior(m, voxels, cond, 32768)
    ensures forall x, y, z :: InChunk(x, y, z) ==>
      (y + 1 in m[x + z * 32] <==> cond(Cell(voxels, x, y, z)))
      && (x + 1 in m[y + z * 32 + 1024] <==> cond(Cell(voxels, x, y, z)))
      && (z + 1 in m[x + y * 32 + 2048] <==> cond(Cell(voxels, x, y, z)))
  {
    forall x, y, z | InChunk(x, y, z)
      ensures Visit(x, y, z) < 32768
    {
    }
  }

  lemma EndsComplete(m: seq<Word>, c: Cluster, cond: Voxel -> bool)
    requires |m| == 3072 && Valid(c)
    requires Ends(m, c, cond, 0, 1024) && Ends(m, c, cond, 1, 1024) && Ends(m, c, cond, 2, 1024)
    ensures forall a, b :: 0 <= a < 32 && 0 <= b < 32 ==>
      (0 in m[a + b * 32] <==> cond(GetVoxel(c, a, -1, b)))
      && (33 in m[a + b * 32] <==> cond(GetVoxel(c, a, 32, b)))
      && (0 in m[a + b * 32 + 1024] <==> cond(GetVoxel(c, -1, a, b)))
      && (33 in m[a + b * 32 + 1024] <==> cond(GetVoxel(c, 32, a, b)))
      && (0 in m[a + b * 32 + 2048] <==> cond(GetVoxel(c, a, b, -1)))
      && (33 in m[a + b * 32 + 2048] <==> cond(GetVoxel(c, a, b, 32)))
  {
    forall a, b | 0 <= a < 32 && 0 <= b < 32
      ensures (0 in m[a + b * 32] <==> cond(GetVoxel(c, a, -1, b)))
        && (33 in m[a + b * 32] <==> cond(GetVoxel(c, a, 32, b)))
        && (0 in m[a + b * 32 + 1024] <==> cond(GetVoxel(c, -1, a, b)))
        && (33 in m[a + b * 32 + 1024] <==> cond(GetVoxel(c, 32, a, b)))
        && (0 in m[a + b * 32 + 2048] <==> cond(GetVoxel(c, a, b, -1)))
        && (33 in m[a + b * 32 + 2048] <==> cond(GetVoxel(c, a, b, 32)))
    {
      assert Col(0, a, b) == a + b * 32 && Col(1, a, b) == a + b * 32 + 1024 && Col(2, a, b) == a + b * 32 + 2048;
      assert a + b * 32 < 1024;
    }
  }

  /** The body of the first loop of `build_masks` for voxel `(x, y, z)`. */
  method MarkVoxel(m: array<Word>, voxels: seq<Voxel>, cond: Voxel -> bool, x: int, y: int, z: int)
    requires m.Length == 3072 && Full(voxels) && InChunk(x, y, z)
    modifies m
    ensures m[..] == Mark(old(m[..]), voxels, cond, x, y, z)
  {
    if cond(voxels[Index(x, y, z)]) {
      m[x + z * 32] := m[x + z * 32] + {y + 1};
      m[y + z * 32 + 1024] := m[y + z * 32 + 1024] + {x + 1};
      m[x + y * 32 + 2048] := m[x + y * 32 + 2048] + {z + 1};
    }
  }

  /** The first loop of `build_masks`: for every voxel of the chunk satisfying
    * `condition`, bit `k + 1` of its column in each of the three groups. */
  method MarkVoxels(m: array<Word>, voxels: seq<Voxel>, cond: Voxel -> bool)
    requires m.Length == 3072 && Full(voxels)
    requires forall i :: 0 <= i < 3072 ==> m[i] == {}
    modifies m
    ensures Interior(m[..], voxels, cond, 32768) && BitsWithin(m[..], 1, 32)
  {
    var z := 0;
    while z < 32
      invariant 0 <= z <= 32
      invariant Interior(m[..], voxels, cond, z * 1024) && BitsWithin(m[..], 1, 32)
    {
      var y := 0;
      while y < 32
        invariant 0 <= y <= 32
        invariant Interior(m[..], voxels, cond, y * 32 + z * 1024) && BitsWithin(m[..], 1, 32)
      {
        var x := 0;
        while x < 32
          invariant 0 <= x <= 32
          invariant Interior(m[..], voxels, cond, Visit(x, y, z)) && BitsWithin(m[..], 1, 32)
        {
          ghost var before := m[..];
          MarkVoxel(m, voxels, cond, x, y, z);
          MarkInterior0(before, voxels, cond, x, y, z);
          MarkInterior1(before, voxels, cond, x, y, z);
          MarkInterior2(before, voxels, cond, x, y, z);
          MarkWithin(before, voxels, cond, x, y, z);
          x := x + 1;
        }
        y := y + 1;
      }
      z := z + 1;
    }
  }

  /** `build_masks`: the column words for `condition` over the chunk's voxels, with the
    * end bits read from the cluster. */
  method BuildMasks(voxels: seq<Voxel>, c: Cluster, cond: Voxel -> bool) returns (masks: seq<Word>)
    requires Full(voxels) && Valid(c)
    ensures |masks| == 3072
    ensures forall x, y, z :: InChunk(x, y, z) ==>
      (y + 1 in masks[x + z * 32] <==> cond(Cell(voxels, x, y, z)))
      && (x + 1 in masks[y + z * 32 + 1024] <==> cond(Cell(voxels, x, y, z)))
      && (z + 1 in masks[x + y * 32 + 2048] <==> cond(Cell(voxels, x, y, z)))
    ensures forall a, b :: 0 <= a < 32 && 0 <= b < 32 ==>
      (0 in masks[a + b * 32] <==> cond(GetVoxel(c, a, -1, b)))
      && (33 in masks[a + b * 32] <==> cond(GetVoxel(c, a, 32, b)))
      && (0 in masks[a + b * 32 + 1024] <==> cond(GetVoxel(c, -1, a, b)))
      && (33 in masks[a + b * 32 + 1024] <==> cond(GetVoxel(c, 32, a, b)))
      && (0 in masks[a + b * 32 + 2048] <==> cond(GetVoxel(c, a, b, -1)))
      && (33 in masks[a + b * 32 + 2048] <==> cond(GetVoxel(c, a, b, 32)))
    ensures forall i, j :: 0 <= i < 3072 && j in masks[i] ==> j <= 33
  {
    var m := new Word[3072](_ => {});
    MarkVoxels(m, voxels, cond);
    NoEnds(m[..], c, cond, 0);
    NoEnds(m[..], c, cond, 1);
    NoEnds(m[..], c, cond, 2);
    ghost var m0 := m[..];
    BoundaryLoop(m, voxels, c, cond, 0);
    ghost var m1 := m[..];
    EndsSame(m0, m1, c, cond, 1, 0);
    EndsSame(m0, m1, c, cond, 2, 0);
    BoundaryLoop(m, voxels, c, cond, 1);
    ghost var m2 := m[..];
    EndsSame(m1, m2, c, cond, 0, 1024);
    EndsSame(m1, m2, c, cond, 2, 0);
    BoundaryLoop(m, voxels, c, cond, 2);
    ghost var m3 := m[..];
    EndsSame(m2, m3, c, cond, 0, 1024);
    EndsSame(m2, m3, c, cond, 1, 1024);
    masks := m[..];
    InteriorComplete(masks, voxels, cond);
    EndsComplete(masks, c, cond);
  }
}
