/**
 * The world: the map from chunk positions to chunks that the world owns, the
 * global voxel write that routes a coordinate to its chunk, tree painting over
 * those writes, and the sorting of the chunks around the player into the build,
 * terrain and dirty lists.
 *
 * A chunk's state as the world sees it is its voxel vector and its status; the
 * pure functions below work on a snapshot of those, and the `World` class ties
 * its methods to them.
 */
module Worlds {
  import opened Settings
  import opened Chunks
  import opened Ranges

  datatype Slot = Slot(voxels: seq<Voxel>, status: ChunkStatus)

  type Snapshot = map<Pos, Slot>

  ghost predicate Sane(s: Snapshot) {
    forall p :: p in s ==> Full(s[p].voxels)
  }

  /** One global `set_voxel` call: the global voxel and the voxel written. */
  datatype Paint = Paint(at: Pos, v: Voxel)

  /** The voxel at global `g`, read at its owning chunk's `rem_euclid(32)` position;
    * `None` when that chunk is absent. */
  function Read(s: Snapshot, g: Pos): Option<Voxel>
    requires Sane(s)
  {
    var o, l := Owner(g), Local(g);
    if o in s then Some(Cell(s[o].voxels, l.x, l.y, l.z)) else None
  }

  /** `World::set_voxel` on a snapshot: the owning chunk (each coordinate floor-divided
    * by 32) gets the voxel at the local `rem_euclid(32)` position and becomes `Dirty`;
    * `None` when that chunk is absent, where the source panics. A vector of the wrong
    * length, which no chunk of a valid world has, is left as it is. */
  function Store(s: Snapshot, w: Paint): (r: Option<Snapshot>)
    ensures r.Some? <==> Owner(w.at) in s
    ensures r.Some? ==> r.value.Keys == s.Keys
  {
    var o, l := Owner(w.at), Local(w.at);
    if o !in s then None
    else
      var vs, k := s[o].voxels, Index(l.x, l.y, l.z);
      Some(s[o := Slot(if k < |vs| then vs[k := w.v] else vs, Dirty)])
  }

  /** A store keeps every vector full, marks the owning chunk `Dirty` and leaves every
    * other chunk as it was. */
  lemma StoreFrame(s: Snapshot, w: Paint)
    requires Sane(s) && Owner(w.at) in s
    ensures Sane(Store(s, w).value)
    ensures Store(s, w).value[Owner(w.at)].status == Dirty
    ensures forall p :: p in s && p != Owner(w.at) ==> Store(s, w).value[p] == s[p]
  {
  }

  /** After a successful store, the written voxel reads back and every other global
    * voxel reads as before. */
  lemma StoreReads(s: Snapshot, w: Paint, g: Pos)
    requires Sane(s) && Store(s, w).Some?
    ensures Sane(Store(s, w).value)
    ensures Read(Store(s, w).value, g) == if g == w.at then Some(w.v) else Read(s, g)
  {
    StoreFrame(s, w);
    var o, l := Owner(w.at), Local(w.at);
    var t := Store(s, w).value;
    var o', l' := Owner(g), Local(g);
    OwnerLocalUnique(g, o', l');
    OwnerLocalUnique(w.at, o, l);
    if o' == o {
      UpdateOthers(s[o].voxels, l.x, l.y, l.z, w.v);
      if g != w.at {
        assert l' != l;
        assert Cell(t[o].voxels, l'.x, l'.y, l'.z) == Cell(s[o].voxels, l'.x, l'.y, l'.z);
      }
    }
  }

  /** Global `set_voxel` calls in order, each followed by the ones after it. */
  datatype Writes = Done | Then(first: Paint, rest: Writes)

  /** The writes of `l` in order. */
  function Flat(l: Writes): seq<Paint> {
    match l
    case Done => []
    case Then(w, rest) => [w] + Flat(rest)
  }

  /** Whether `l` holds the write `p`. */
  predicate Has(l: Writes, p: Paint) {
    match l
    case Done => false
    case Then(w, rest) => w == p || Has(rest, p)
  }

  lemma {:induction false} HasFlat(l: Writes, p: Paint)
    ensures Has(l, p) <==> p in Flat(l)
  {
    match l
    case Done =>
    case Then(w, rest) =>
      HasFlat(rest, p);
      assert Flat(l) == [w] + Flat(rest);
  }

  /** The writes of `l`, then those of `tail`. */
  function Cat(l: Writes, tail: Writes): Writes {
    match l
    case Done => tail
    case Then(w, rest) => Then(w, Cat(rest, tail))
  }

  lemma {:induction false} CatFlat(l: Writes, tail: Writes)
    ensures Flat(Cat(l, tail)) == Flat(l) + Flat(tail)
  {
    match l
    case Done =>
    case Then(w, rest) =>
      CatFlat(rest, tail);
      assert [w] + (Flat(rest) + Flat(tail)) == ([w] + Flat(rest)) + Flat(tail);
  }

  /** Global `set_voxel` calls in order under `?`: the first one whose chunk is absent
    * stops the sequence and reports failure; the earlier writes remain. */
  function Run(s: Snapshot, l: Writes): (r: (Snapshot, bool))
    ensures r.0.Keys == s.Keys
  {
    match l
    case Done => (s, true)
    case Then(w, rest) =>
      match Store(s, w)
      case None => (s, false)
      case Some(t) => Run(t, rest)
  }

  /** A run succeeds exactly when every write's chunk is present. */
  lemma {:induction false} RunSucceeds(s: Snapshot, l: Writes)
    ensures Run(s, l).1 <==> forall p :: Has(l, p) ==> Owner(p.at) in s
  {
    match l
    case Done =>
    case Then(w, rest) =>
      if Store(s, w).Some? {
        RunSucceeds(Store(s, w).value, rest);
      }
  }

  /** Running two sequences of writes is running the first and, if it succeeded, the
    * second from where it left off. */
  lemma {:induction false} RunCat(s: Snapshot, a: Writes, b: Writes)
    ensures Run(s, Cat(a, b)) == if Run(s, a).1 then Run(Run(s, a).0, b) else Run(s, a)
  {
    match a
    case Done =>
    case Then(w, rest) =>
      if Store(s, w).Some? {
        RunCat(Store(s, w).value, rest, b);
      }
  }

  /** The voxel the last write to `g` in `l` writes; `None` when nothing writes `g`. */
  function Last(l: Writes, g: Pos): (r: Option<Voxel>) {
    match l
    case Done => None
    case Then(w, rest) =>
      if Last(rest, g).Some? then Last(rest, g)
      else if w.at == g then Some(w.v) else None
  }

  lemma {:induction false} LastHas(l: Writes, g: Pos)
    ensures Last(l, g).Some? ==> Has(l, Paint(g, Last(l, g).value))
    ensures Last(l, g).None? ==> forall v :: !Has(l, Paint(g, v))
  {
    match l
    case Done =>
    case Then(w, rest) =>
      LastHas(rest, g);
  }

  /** After a run that succeeds, a global voxel holds the last voxel written to it, and
    * one that nothing writes reads as before. */
  lemma {:induction false} RunReads(s: Snapshot, l: Writes, g: Pos)
    requires Sane(s) && Run(s, l).1
    ensures Sane(Run(s, l).0)
    ensures Read(Run(s, l).0, g) == if Last(l, g).Some? then Last(l, g) else Read(s, g)
  {
    match l
    case Done =>
    case Then(w, rest) =>
      var t := Store(s, w).value;
      StoreFrame(s, w);
      StoreReads(s, w, g);
      RunReads(t, rest, g);
  }

  // ---------------------------------------------------------------------
  // `World::get_voxel`
  // ---------------------------------------------------------------------

  /** Rust's `%` on `i32`: the remainder takes the sign of the dividend. */
  function TruncRem(a: int, n: int): (r: int)
    requires n > 0
    ensures -n < r < n && (a >= 0 ==> r == a % n)
  {
    if a >= 0 then a % n else -((-a) % n)
  }

  /** `World::get_voxel` as written: the chunk is found by floor division, but the
    * local coordinates are the truncating `%`; `None` where the source panics (an
    * absent chunk, or a flat index outside the voxel vector). */
  function GetVoxel(s: Snapshot, g: Pos): Option<Voxel>
    requires Sane(s)
  {
    var o := Owner(g);
    var l := Pos(TruncRem(g.x, 32), TruncRem(g.y, 32), TruncRem(g.z, 32));
    if o in s && 0 <= Index(l.x, l.y, l.z) < 32768 then Some(Cell(s[o].voxels, l.x, l.y, l.z)) else None
  }

  /** With non-negative coordinates the two remainders agree and `get_voxel` reads
    * the voxel `set_voxel` writes. */
  lemma GetVoxelNonNegative(s: Snapshot, g: Pos)
    requires Sane(s) && g.x >= 0 && g.y >= 0 && g.z >= 0
    ensures GetVoxel(s, g) == Read(s, g)
  {
    var l := Local(g);
    IndexInjective(l.x, l.y, l.z, l.x, l.y, l.z);
  }

  /** A negative coordinate reads the wrong voxel: global `(-1, 1, 0)` lies at local
    * `(31, 1, 0)` of chunk `(-1, 0, 0)`, but the truncating `%` gives `(-1, 1, 0)`,
    * whose flat index 1023 is local `(31, 0, 31)`. */
  lemma GetVoxelMisreads()
    ensures var s := map[Pos(-1, 0, 0) := Slot(Put(Blank(), 31, 1, 0, WOOD), Dirty)];
      Sane(s) && Read(s, Pos(-1, 1, 0)) == Some(WOOD) && GetVoxel(s, Pos(-1, 1, 0)) == Some(EMPTY)
  {
    var s := map[Pos(-1, 0, 0) := Slot(Put(Blank(), 31, 1, 0, WOOD), Dirty)];
    assert Index(31, 1, 0) == 1055 && Index(-1, 1, 0) == 1023;
    assert Owner(Pos(-1, 1, 0)) == Pos(-1, 0, 0) && Local(Pos(-1, 1, 0)) == Pos(31, 1, 0);
  }

  // ---------------------------------------------------------------------
  // Trees
  // ---------------------------------------------------------------------

  /** `build_tree_at`'s trunk height: the hash entry for the tree's position, taken
    * `rem_euclid(4)`, plus 4. */
  function TrunkHeight(hash: seq<int>, x: int, y: int, z: int): (h: int)
    requires |hash| > 0
    ensures 4 <= h <= 7
  {
    hash[HashIndex(x * 13 + y * 3 + z * 3, |hash|)] % 4 + 4
  }

  /** The half-width of canopy layer `ty`: `3 - ty` plus the hash entry for the layer
    * under Rust's truncating `% 3`. */
  function Stride(hash: seq<int>, x: int, z: int, ty: int): int
    requires |hash| > 0
  {
    (3 - ty) + TruncRem(hash[HashIndex(x * 5 + ty * 11 + z * 13, |hash|)], 3)
  }

  /** WOOD at `(x, y + t, z)` for `t` from `t0` up to `h`, then `rest`. */
  function Trunk(x: int, y: int, z: int, h: int, t0: int, rest: Writes): Writes
    decreases h - t0
  {
    if t0 >= h then rest else Then(Paint(Pos(x, y + t0, z), WOOD), Trunk(x, y, z, h, t0 + 1, rest))
  }

  /** LEAF at `(cx + tx, cy, cz + tz)` for `tz` from `tz0` up to `hi`, then `rest`. */
  function Line(cx: int, cy: int, cz: int, hi: int, tx: int, tz0: int, rest: Writes): Writes
    decreases hi - tz0 + 1
  {
    if tz0 > hi then rest else Then(Paint(Pos(cx + tx, cy, cz + tz0), LEAF), Line(cx, cy, cz, hi, tx, tz0 + 1, rest))
  }

  /** The lines for `tx` from `tx0` up to `hi`, each over `[lo, hi]`, then `rest`. */
  function Square(cx: int, cy: int, cz: int, lo: int, hi: int, tx0: int, rest: Writes): Writes
    decreases hi - tx0 + 1
  {
    if tx0 > hi then rest else Line(cx, cy, cz, hi, tx0, lo, Square(cx, cy, cz, lo, hi, tx0 + 1, rest))
  }

  /** The half-widths of the four canopy layers of the tree in column `(x, z)`. */
  function Strides(hash: seq<int>, x: int, z: int): (ss: seq<int>)
    requires |hash| > 0
    ensures |ss| == 4
  {
    seq(4, ty => Stride(hash, x, z, ty))
  }

  /** The canopy layers from `ty0` on above base height `cy`, then `rest`: layer `ty`
    * is the square of half-width `ss[ty]` at height `cy + ty`. */
  function Canopy(ss: seq<int>, x: int, cy: int, z: int, ty0: nat, rest: Writes): Writes
    decreases |ss| - ty0
  {
    if ty0 >= |ss| then rest
    else
      var s := ss[ty0];
      Square(x, cy + ty0, z, -s, s, -s, Canopy(ss, x, cy, z, ty0 + 1, rest))
  }

  /** The `set_voxel` calls of `build_tree_at((x, y, z))` in order, then `rest`. */
  function TreeWrites(hash: seq<int>, x: int, y: int, z: int, rest: Writes): Writes
    requires |hash| > 0
  {
    var h := TrunkHeight(hash, x, y, z);
    Trunk(x, y, z, h, 0, Then(Paint(Pos(x, y + h, z), LEAF), Canopy(Strides(hash, x, z), x, y + h, z, 0, rest)))
  }

  lemma {:induction false} TrunkCat(x: int, y: int, z: int, h: int, t0: int, r: Writes, b: Writes)
    ensures Trunk(x, y, z, h, t0, Cat(r, b)) == Cat(Trunk(x, y, z, h, t0, r), b)
    decreases h - t0
  {
    if t0 < h {
      TrunkCat(x, y, z, h, t0 + 1, r, b);
    }
  }

  lemma {:induction false} LineCat(cx: int, cy: int, cz: int, hi: int, tx: int, tz0: int, r: Writes, b: Writes)
    ensures Line(cx, cy, cz, hi, tx, tz0, Cat(r, b)) == Cat(Line(cx, cy, cz, hi, tx, tz0, r), b)
    decreases hi - tz0 + 1
  {
    if tz0 <= hi {
      LineCat(cx, cy, cz, hi, tx, tz0 + 1, r, b);
    }
  }

  lemma {:induction false} SquareCat(cx: int, cy: int, cz: int, lo: int, hi: int, tx0: int, r: Writes, b: Writes)
    ensures Square(cx, cy, cz, lo, hi, tx0, Cat(r, b)) == Cat(Square(cx, cy, cz, lo, hi, tx0, r), b)
    decreases hi - tx0 + 1
  {
    if tx0 <= hi {
      SquareCat(cx, cy, cz, lo, hi, tx0 + 1, r, b);
      LineCat(cx, cy, cz, hi, tx0, lo, Square(cx, cy, cz, lo, hi, tx0 + 1, r), b);
    }
  }

  lemma {:induction false} CanopyCat(ss: seq<int>, x: int, cy: int, z: int, ty0: nat, r: Writes, b: Writes)
    ensures Canopy(ss, x, cy, z, ty0, Cat(r, b)) == Cat(Canopy(ss, x, cy, z, ty0, r), b)
    decreases |ss| - ty0
  {
    if ty0 < |ss| {
      var hi := ss[ty0];
      var lo := -hi;
      CanopyCat(ss, x, cy, z, ty0 + 1, r, b);
      SquareCat(x, cy + ty0, z, lo, hi, lo, Canopy(ss, x, cy, z, ty0 + 1, r), b);
    }
  }

  /** A tree's writes followed by `rest` are the tree's own writes, then `rest`. */
  lemma TreeCat(hash: seq<int>, x: int, y: int, z: int, rest: Writes)
    requires |hash| > 0
    ensures TreeWrites(hash, x, y, z, rest) == Cat(TreeWrites(hash, x, y, z, Done), rest)
  {
    var h := TrunkHeight(hash, x, y, z);
    var leaf := Paint(Pos(x, y + h, z), LEAF);
    var ss := Strides(hash, x, z);
    CanopyCat(ss, x, y + h, z, 0, Done, rest);
    TrunkCat(x, y, z, h, 0, Then(leaf, Canopy(ss, x, y + h, z, 0, Done)), rest);
  }

  /** Running a tree and then `rest`: `rest` runs only when the whole tree succeeded. */
  lemma TreeThen(s: Snapshot, hash: seq<int>, x: int, y: int, z: int, rest: Writes)
    requires |hash| > 0
    ensures var (t, ok) := Run(s, TreeWrites(hash, x, y, z, Done));
      Run(s, TreeWrites(hash, x, y, z, rest)) == if ok then Run(t, rest) else (t, false)
  {
    TreeCat(hash, x, y, z, rest);
    RunCat(s, TreeWrites(hash, x, y, z, Done), rest);
  }

  lemma {:induction false} LineHas(cx: int, cy: int, cz: int, hi: int, tx: int, tz0: int, rest: Writes, p: Paint)
    ensures Has(Line(cx, cy, cz, hi, tx, tz0, rest), p) <==>
      (p.v == LEAF && p.at.x == cx + tx && p.at.y == cy && tz0 <= p.at.z - cz <= hi) || Has(rest, p)
    decreases hi - tz0 + 1
  {
    if tz0 <= hi {
      LineHas(cx, cy, cz, hi, tx, tz0 + 1, rest, p);
    }
  }

  lemma {:induction false} SquareHas(cx: int, cy: int, cz: int, lo: int, hi: int, tx0: int, rest: Writes, p: Paint)
    ensures Has(Square(cx, cy, cz, lo, hi, tx0, rest), p) <==>
      (p.v == LEAF && p.at.y == cy && tx0 <= p.at.x - cx <= hi && lo <= p.at.z - cz <= hi) || Has(rest, p)
    decreases hi - tx0 + 1
  {
    if tx0 <= hi {
      SquareHas(cx, cy, cz, lo, hi, tx0 + 1, rest, p);
      LineHas(cx, cy, cz, hi, tx0, lo, Square(cx, cy, cz, lo, hi, tx0 + 1, rest), p);
    }
  }

  lemma {:induction false} AbsWithin(a: int, s: int)
    ensures Abs(a) <= s <==> -s <= a <= s
  {
  }

  /** LEAF on one of the layers above base height `cy`, within that layer's
    * half-width. */
  predicate InCanopy(ss: seq<int>, x: int, cy: int, z: int, p: Paint) {
    var ty := p.at.y - cy;
    0 <= ty < |ss| && p.v == LEAF && Abs(p.at.x - x) <= ss[ty] && Abs(p.at.z - z) <= ss[ty]
  }

  /** Canopy layer `ty` holds the leaves of that layer. */
  lemma LayerHas(ss: seq<int>, x: int, cy: int, z: int, ty: nat, lo: int, hi: int, rest: Writes, p: Paint)
    requires ty < |ss| && hi == ss[ty] && lo == -hi
    ensures Has(Square(x, cy + ty, z, lo, hi, lo, rest), p) <==>
      (p.at.y - cy == ty && InCanopy(ss, x, cy, z, p)) || Has(rest, p)
  {
    SquareHas(x, cy + ty, z, lo, hi, lo, rest, p);
    AbsWithin(p.at.x - x, hi);
    AbsWithin(p.at.z - z, hi);
  }

  /** The canopy from layer `ty0` is LEAF exactly on the squares of the layers from
    * `ty0` on, each of its own half-width. */
  lemma {:induction false} CanopyHas(ss: seq<int>, x: int, cy: int, z: int, ty0: nat, rest: Writes, p: Paint)
    ensures Has(Canopy(ss, x, cy, z, ty0, rest), p) <==>
      (ty0 <= p.at.y - cy && InCanopy(ss, x, cy, z, p)) || Has(rest, p)
    decreases |ss| - ty0
  {
    if ty0 < |ss| {
      var hi := ss[ty0];
      var lo := -hi;
      var above := Canopy(ss, x, cy, z, ty0 + 1, rest);
      assert Canopy(ss, x, cy, z, ty0, rest) == Square(x, cy + ty0, z, lo, hi, lo, above);
      CanopyHas(ss, x, cy, z, ty0 + 1, rest, p);
      LayerHas(ss, x, cy, z, ty0, lo, hi, above, p);
    }
  }

  /** The writes of a trunk: WOOD up from `(x, y + t0, z)` to below height `y + h`,
    * then those of `rest`. */
  lemma {:induction false} TrunkFlat(x: int, y: int, z: int, h: int, t0: int, rest: Writes)
    requires t0 <= h
    ensures var f := Flat(Trunk(x, y, z, h, t0, rest));
      |f| == h - t0 + |Flat(rest)| && f[h - t0..] == Flat(rest)
      && forall i :: 0 <= i < h - t0 ==> f[i] == Paint(Pos(x, y + t0 + i, z), WOOD)
    decreases h - t0
  {
    if t0 < h {
      var w := Paint(Pos(x, y + t0, z), WOOD);
      var g := Flat(Trunk(x, y, z, h, t0 + 1, rest));
      TrunkFlat(x, y, z, h, t0 + 1, rest);
      var f := Flat(Trunk(x, y, z, h, t0, rest));
      assert f == [w] + g;
      assert f[h - t0..] == g[h - t0 - 1..];
      forall i | 0 <= i < h - t0
        ensures f[i] == Paint(Pos(x, y + t0 + i, z), WOOD)
      {
        if i == 0 {
          assert f[i] == w;
        } else {
          var j := i - 1;
          assert f[i] == g[j];
          assert g[j] == Paint(Pos(x, y + (t0 + 1) + j, z), WOOD);
          assert y + (t0 + 1) + j == y + t0 + i;
        }
      }
    }
  }

  /** `build_tree_at((x, y, z))` writes WOOD up the trunk, `h` voxels from `(x, y, z)`
    * with `h` in `[4, 7]`, then LEAF above the trunk, then the canopy. */
  lemma TreeTrunk(hash: seq<int>, x: int, y: int, z: int)
    requires |hash| > 0
    ensures var w, h := Flat(TreeWrites(hash, x, y, z, Done)), TrunkHeight(hash, x, y, z);
      4 <= h <= 7 && |w| > h
      && (forall t :: 0 <= t < h ==> w[t] == Paint(Pos(x, y + t, z), WOOD))
      && w[h] == Paint(Pos(x, y + h, z), LEAF)
      && w[h + 1..] == Flat(Canopy(Strides(hash, x, z), x, y + h, z, 0, Done))
  {
    var h := TrunkHeight(hash, x, y, z);
    var canopy := Canopy(Strides(hash, x, z), x, y + h, z, 0, Done);
    var leaf := Paint(Pos(x, y + h, z), LEAF);
    TrunkFlat(x, y, z, h, 0, Then(leaf, canopy));
    var w := Flat(TreeWrites(hash, x, y, z, Done));
    assert w[h..] == [leaf] + Flat(canopy);
    assert w[h + 1..] == w[h..][1..];
  }

  /** The canopy of a tree whose trunk top is at height `cy` is LEAF exactly on the
    * four layers from `cy` up, layer `ty` within half-width `Stride` of the trunk. */
  lemma TreeCanopy(hash: seq<int>, x: int, cy: int, z: int, p: Paint)
    requires |hash| > 0
    ensures p in Flat(Canopy(Strides(hash, x, z), x, cy, z, 0, Done)) <==>
      var ty := p.at.y - cy;
      0 <= ty <= 3 && p.v == LEAF
      && Abs(p.at.x - x) <= Stride(hash, x, z, ty) && Abs(p.at.z - z) <= Stride(hash, x, z, ty)
  {
    var ss := Strides(hash, x, z);
    HasFlat(Canopy(ss, x, cy, z, 0, Done), p);
    CanopyHas(ss, x, cy, z, 0, Done, p);
  }

  /** The `set_voxel` calls of `build_tree_at` for each seed of `es` from index `j` on,
    * in order, then `rest`. */
  function TreesFrom(hash: seq<int>, es: seq<Placed>, j: nat, rest: Writes): Writes
    requires |hash| > 0
    decreases |es| - j
  {
    if j >= |es| then rest
    else
      match es[j].kind
      case SEED => TreeWrites(hash, es[j].x, es[j].y, es[j].z, TreesFrom(hash, es, j + 1, rest))
  }

  /** The `set_voxel` calls of `decorate`: every chunk's entity list from index `i` on,
    * in order, then `rest`. */
  function ForestFrom(hash: seq<int>, ess: seq<seq<Placed>>, i: nat, rest: Writes): Writes
    requires |hash| > 0
    decreases |ess| - i
  {
    if i >= |ess| then rest else TreesFrom(hash, ess[i], 0, ForestFrom(hash, ess, i + 1, rest))
  }

  // ---------------------------------------------------------------------
  // `promote_chunks`
  // ---------------------------------------------------------------------

  /** Whether a position goes into a list: always when its chunk is missing, and when
    * `want` names a status, also when the chunk has it. */
  predicate Wanted(st: map<Pos, ChunkStatus>, q: Pos, want: Option<ChunkStatus>) {
    q !in st || (want.Some? && st[q] == want.value)
  }

  /** The positions of `ps` that are wanted, in order. */
  function Pick(ps: seq<Pos>, st: map<Pos, ChunkStatus>, want: Option<ChunkStatus>): seq<Pos>
    decreases |ps|
  {
    if ps == [] then []
    else Pick(ps[..|ps| - 1], st, want) + (if Wanted(st, ps[|ps| - 1], want) then [ps[|ps| - 1]] else [])
  }

  /** One more position: `Pick` of a longer prefix adds that position when wanted. */
  lemma PickStep(ps: seq<Pos>, k: nat, st: map<Pos, ChunkStatus>, want: Option<ChunkStatus>)
    requires k < |ps|
    ensures Pick(ps[..k + 1], st, want) == Pick(ps[..k], st, want) + if Wanted(st, ps[k], want) then [ps[k]] else []
  {
    assert ps[..k + 1][..k] == ps[..k];
  }

  lemma {:induction false} PickMembers(ps: seq<Pos>, st: map<Pos, ChunkStatus>, want: Option<ChunkStatus>, q: Pos)
    ensures q in Pick(ps, st, want) <==> q in ps && Wanted(st, q, want)
    decreases |ps|
  {
    if ps != [] {
      var init := ps[..|ps| - 1];
      PickMembers(init, st, want, q);
      assert ps == init + [ps[|ps| - 1]];
    }
  }

  /** `promote_chunks` sorts the chunks around `p`: inside the render range a missing
    * chunk goes into all three lists, a `Dirty` one only into the dirty list, a
    * `Terrain` one only into the terrain list and an `Empty` or `Clean` one into none;
    * a border chunk goes into the build list only, and only when missing; nothing
    * else is listed. */
  lemma PromoteSorting(p: Pos, r: nat, st: map<Pos, ChunkStatus>, q: Pos)
    ensures var rr, br := RenderRange(p, r), BorderRange(p, r);
      var build, terrain, dirty := Pick(rr, st, None) + Pick(br, st, None), Pick(rr, st, Some(Terrain)), Pick(rr, st, Some(Dirty));
      (Cheb(p, q) <= r ==>
         (q in build <==> q !in st)
         && (q in terrain <==> q !in st || st[q] == Terrain)
         && (q in dirty <==> q !in st || st[q] == Dirty))
      && (Cheb(p, q) == r + 1 ==> (q in build <==> q !in st) && q !in terrain && q !in dirty)
      && (Cheb(p, q) > r + 1 ==> q !in build && q !in terrain && q !in dirty)
  {
    var rr, br := RenderRange(p, r), BorderRange(p, r);
    RenderRangeExact(p, r);
    BorderRangeExact(p, r);
    PickMembers(rr, st, None, q);
    PickMembers(br, st, None, q);
    PickMembers(rr, st, Some(Terrain), q);
    PickMembers(rr, st, Some(Dirty), q);
  }

  // ---------------------------------------------------------------------
  // The world
  // ---------------------------------------------------------------------

  class World {
    var chunks: map<Pos, Chunk>

    /** Every chunk is well formed and sits under its own position, so no chunk
      * object is shared between two positions. */
    ghost predicate Valid()
      reads this, chunks.Values
    {
      forall p :: p in chunks ==> chunks[p].Valid() && chunks[p].pos == p
    }

    /** The voxels and status of every chunk. */
    function State(): (s: Snapshot)
      reads this, chunks.Values
      ensures s.Keys == chunks.Keys
    {
      map p | p in chunks :: Slot(chunks[p].voxels, chunks[p].status)
    }

    /** The status of every chunk. */
    function Statuses(): (st: map<Pos, ChunkStatus>)
      reads this, chunks.Values
      ensures st.Keys == chunks.Keys
      ensures forall p :: p in chunks ==> st[p] == chunks[p].status
    {
      map p | p in chunks :: chunks[p].status
    }

    /** `World::new`: no chunks yet. */
    constructor ()
      ensures Valid() && chunks == map[]
    {
      chunks := map[];
    }

    /** `World::set_voxel`: the store of `Store`, or failure with nothing changed when
      * the owning chunk is absent. */
    method SetVoxel(g: Pos, v: Voxel) returns (ok: bool)
      requires Valid()
      modifies chunks.Values
      ensures Valid()
      ensures Store(old(State()), Paint(g, v)) == if ok then Some(State()) else None
      ensures !ok ==> State() == old(State())
    {
      var o, l := Owner(g), Local(g);
      if o !in chunks {
        return false;
      }
      ghost var s := State();
      var c := chunks[o];
      var _ := c.SetVoxel(l.x, l.y, l.z, v);
      ok := true;
      ghost var t := Store(s, Paint(g, v)).value;
      forall p | p in chunks ensures State()[p] == t[p] {
        if p != o {
          assert chunks[p] != c;
        }
      }
      assert State() == t;
    }

    /** What is left of a run whose outcome is `goal` is `todo` from the current
      * state. */
    ghost predicate Owes(goal: (Snapshot, bool), todo: Writes)
      reads this, chunks.Values
    {
      Run(State(), todo) == goal
    }

    /** The run whose outcome is `goal` has stopped at a failure in the current
      * state. */
    ghost predicate Stopped(goal: (Snapshot, bool))
      reads this, chunks.Values
    {
      goal == (State(), false)
    }

    /** One write of a sequence being run: `set_voxel`, then the rest of the
      * sequence is what remains to run, unless the write failed. */
    method Paint1(w: Paint, ghost rest: Writes, ghost goal: (Snapshot, bool)) returns (ok: bool)
      requires Valid() && Owes(goal, Then(w, rest))
      modifies chunks.Values
      ensures Valid() && if ok then Owes(goal, rest) else Stopped(goal)
    {
      ok := SetVoxel(w.at, w.v);
    }

    /** The trunk loop of `build_tree_at`: WOOD at `(x, y + ty, z)` for `ty` below `h`. */
    method PaintTrunk(x: int, y: int, z: int, h: int, ghost rest: Writes, ghost goal: (Snapshot, bool))
      returns (ok: bool)
      requires Valid() && Owes(goal, Trunk(x, y, z, h, 0, rest))
      modifies chunks.Values
      ensures Valid() && if ok then Owes(goal, rest) else Stopped(goal)
    {
      ok := true;
      var ty := 0;
      while ty < h
        invariant Valid() && Owes(goal, Trunk(x, y, z, h, ty, rest))
        decreases h - ty
      {
        ok := Paint1(Paint(Pos(x, y + ty, z), WOOD), Trunk(x, y, z, h, ty + 1, rest), goal);
        if !ok { return; }
        ty := ty + 1;
      }
    }

    /** The innermost canopy loop: LEAF at `(cx + tx, cy, cz + tz)` for `tz` over the
      * inclusive range `[lo, hi]`. */
    method PaintLine(cx: int, cy: int, cz: int, lo: int, hi: int, tx: int, ghost rest: Writes, ghost goal: (Snapshot, bool))
      returns (ok: bool)
      requires Valid() && Owes(goal, Line(cx, cy, cz, hi, tx, lo, rest))
      modifies chunks.Values
      ensures Valid() && if ok then Owes(goal, rest) else Stopped(goal)
    {
      ok := true;
      var tz := lo;
      while tz <= hi
        invariant Valid() && Owes(goal, Line(cx, cy, cz, hi, tx, tz, rest))
        decreases hi - tz
      {
        ok := Paint1(Paint(Pos(cx + tx, cy, cz + tz), LEAF), Line(cx, cy, cz, hi, tx, tz + 1, rest), goal);
        if !ok { return; }
        tz := tz + 1;
      }
    }

    /** One canopy layer: the lines for `tx` over `[lo, hi]`, each over `[lo, hi]`. */
    method PaintSquare(cx: int, cy: int, cz: int, lo: int, hi: int, ghost rest: Writes, ghost goal: (Snapshot, bool))
      returns (ok: bool)
      requires Valid() && Owes(goal, Square(cx, cy, cz, lo, hi, lo, rest))
      modifies chunks.Values
      ensures Valid() && if ok then Owes(goal, rest) else Stopped(goal)
    {
      ok := true;
      var tx := lo;
      while tx <= hi
        invariant Valid() && Owes(goal, Square(cx, cy, cz, lo, hi, tx, rest))
        decreases hi - tx
      {
        ok := PaintLine(cx, cy, cz, lo, hi, tx, Square(cx, cy, cz, lo, hi, tx + 1, rest), goal);
        if !ok { return; }
        tx := tx + 1;
      }
    }

    /** The canopy: for `ty` from 0 to 3, the square of half-width `Stride` at height
      * `cy + ty`. */
    method PaintCanopy(hash: seq<int>, x: int, cy: int, z: int, ghost rest: Writes, ghost goal: (Snapshot, bool))
      returns (ok: bool)
      requires Valid() && |hash| > 0 && Owes(goal, Canopy(Strides(hash, x, z), x, cy, z, 0, rest))
      modifies chunks.Values
      ensures Valid() && if ok then Owes(goal, rest) else Stopped(goal)
    {
      ok := true;
      ghost var ss := Strides(hash, x, z);
      for ty := 0 to 4
        invariant Valid() && Owes(goal, Canopy(ss, x, cy, z, ty, rest))
      {
        var stride := Stride(hash, x, z, ty);
        var lo := -stride;
        assert stride == ss[ty];
        var layer := cy + ty;
        assert Canopy(ss, x, cy, z, ty, rest) == Square(x, layer, z, lo, stride, lo, Canopy(ss, x, cy, z, ty + 1, rest));
        ok := PaintSquare(x, layer, z, lo, stride, Canopy(ss, x, cy, z, ty + 1, rest), goal);
        if !ok { return; }
      }
    }

    /** `build_tree_at((x, y, z))`: its writes run in order and the first failure
      * stops the tree. */
    method BuildTreeAt(hash: seq<int>, x: int, y: int, z: int) returns (ok: bool)
      requires Valid() && |hash| > 0
      modifies chunks.Values
      ensures Valid()
      ensures (State(), ok) == Run(old(State()), TreeWrites(hash, x, y, z, Done))
    {
      ghost var goal := Run(State(), TreeWrites(hash, x, y, z, Done));
      var height := TrunkHeight(hash, x, y, z);
      var top := y + height;
      ghost var canopy := Canopy(Strides(hash, x, z), x, top, z, 0, Done);
      ok := PaintTrunk(x, y, z, height, Then(Paint(Pos(x, top, z), LEAF), canopy), goal);
      if !ok { return; }
      ok := Paint1(Paint(Pos(x, top, z), LEAF), canopy, goal);
      if !ok { return; }
      ok := PaintCanopy(hash, x, top, z, Done, goal);
    }

    /** `decorate`: a tree for every seed of every chunk's entity list, in order; the
      * first failure stops it. */
    method Decorate(hash: seq<int>, entities: seq<seq<Placed>>) returns (ok: bool)
      requires Valid() && |hash| > 0
      modifies chunks.Values
      ensures Valid()
      ensures (State(), ok) == Run(old(State()), ForestFrom(hash, entities, 0, Done))
    {
      ghost var goal := Run(State(), ForestFrom(hash, entities, 0, Done));
      for i := 0 to |entities|
        invariant Valid() && Owes(goal, ForestFrom(hash, entities, i, Done))
      {
        var es := entities[i];
        ghost var later := ForestFrom(hash, entities, i + 1, Done);
        for j := 0 to |es|
          invariant Valid() && Owes(goal, TreesFrom(hash, es, j, later))
        {
          var e := es[j];
          TreeThen(State(), hash, e.x, e.y, e.z, TreesFrom(hash, es, j + 1, later));
          match e.kind {
            case SEED =>
              ok := BuildTreeAt(hash, e.x, e.y, e.z);
          }
          if !ok { return; }
        }
      }
      ok := true;
    }

    /** `promote_chunks`: the build, terrain and dirty lists for a player in chunk `p`
      * with render distance `r`. */
    method PromoteChunks(p: Pos, r: nat) returns (build: seq<Pos>, terrain: seq<Pos>, dirty: seq<Pos>)
      ensures build == Pick(RenderRange(p, r), Statuses(), None) + Pick(BorderRange(p, r), Statuses(), None)
      ensures terrain == Pick(RenderRange(p, r), Statuses(), Some(Terrain))
      ensures dirty == Pick(RenderRange(p, r), Statuses(), Some(Dirty))
    {
      var st := Statuses();
      var rr := RenderRange(p, r);
      build, terrain, dirty := [], [], [];
      for k := 0 to |rr|
        invariant build == Pick(rr[..k], st, None)
        invariant terrain == Pick(rr[..k], st, Some(Terrain))
        invariant dirty == Pick(rr[..k], st, Some(Dirty))
      {
        var pos := rr[k];
        PickStep(rr, k, st, None);
        PickStep(rr, k, st, Some(Terrain));
        PickStep(rr, k, st, Some(Dirty));
        if pos in chunks {
          match chunks[pos].status {
            case Dirty => dirty := dirty + [pos];
            case Terrain => terrain := terrain + [pos];
            case _ =>
          }
        } else {
          build := build + [pos];
          dirty := dirty + [pos];
          terrain := terrain + [pos];
        }
      }
      assert rr[..|rr|] == rr;
      build := build + Pick(BorderRange(p, r), st, None);
    }
  }
}
