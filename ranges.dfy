/**
 * The chunk ranges around the player: `render_range`, the box of chunks within
 * the render distance, and `border_range` / `_outer_border_range`, the shells
 * one and two chunks beyond it. Each is listed in the order its nested ranges
 * produce it; the render distance is a parameter.
 */
module Ranges {
  import opened Settings

  function Abs(a: int): nat {
    if a < 0 then -a else a
  }

  /** Chebyshev distance between two chunk positions. */
  function Cheb(p: Pos, q: Pos): nat {
    var dx, dy, dz := Abs(q.x - p.x), Abs(q.y - p.y), Abs(q.z - p.z);
    if dx >= dy && dx >= dz then dx else if dy >= dz then dy else dz
  }

  /** Every element of `s` occurs once. */
  ghost predicate Unique(s: seq<Pos>) {
    forall i, j :: 0 <= i < j < |s| ==> s[i] != s[j]
  }

  // ---------------------------------------------------------------------
  // `render_range`
  // ---------------------------------------------------------------------

  /** The innermost range: `z` from `lo` for `n` steps at fixed `(x, y)`. */
  function Zs(x: int, y: int, lo: int, n: nat): (r: seq<Pos>)
    ensures |r| == n
  {
    seq(n, i => Pos(x, y, lo + i))
  }

  /** `y` from `lo` for `n` steps, each followed by its `z` range. */
  function Ys(x: int, lo: int, n: nat, zlo: int, zn: nat): (r: seq<Pos>)
    decreases n
  {
    if n == 0 then [] else Ys(x, lo, n - 1, zlo, zn) + Zs(x, lo + n - 1, zlo, zn)
  }

  /** `x` from `lo` for `n` steps, each followed by its `y` range. */
  function Xs(lo: int, n: nat, ylo: int, yn: nat, zlo: int, zn: nat): (r: seq<Pos>)
    decreases n
  {
    if n == 0 then [] else Xs(lo, n - 1, ylo, yn, zlo, zn) + Ys(lo + n - 1, ylo, yn, zlo, zn)
  }

  /** `render_range(p)`: every chunk with each coordinate within `r` of the player's. */
  function RenderRange(p: Pos, r: nat): seq<Pos> {
    Xs(p.x - r, 2 * r + 1, p.y - r, 2 * r + 1, p.z - r, 2 * r + 1)
  }

  lemma {:induction false} YsLength(x: int, lo: int, n: nat, zlo: int, zn: nat)
    ensures |Ys(x, lo, n, zlo, zn)| == n * zn
    decreases n
  {
    if n > 0 {
      YsLength(x, lo, n - 1, zlo, zn);
      assert (n - 1) * zn + zn == n * zn;
    }
  }

  lemma {:induction false} XsLength(lo: int, n: nat, ylo: int, yn: nat, zlo: int, zn: nat)
    ensures |Xs(lo, n, ylo, yn, zlo, zn)| == n * (yn * zn)
    decreases n
  {
    if n > 0 {
      XsLength(lo, n - 1, ylo, yn, zlo, zn);
      YsLength(lo + n - 1, ylo, yn, zlo, zn);
      assert (n - 1) * (yn * zn) + yn * zn == n * (yn * zn);
    }
  }

  lemma {:induction false} YsMembers(x: int, lo: int, n: nat, zlo: int, zn: nat, q: Pos)
    ensures q in Ys(x, lo, n, zlo, zn) <==> q.x == x && lo <= q.y < lo + n && zlo <= q.z < zlo + zn
    decreases n
  {
    if n > 0 {
      YsMembers(x, lo, n - 1, zlo, zn, q);
      if q.x == x && q.y == lo + n - 1 && zlo <= q.z < zlo + zn {
        assert Zs(x, lo + n - 1, zlo, zn)[q.z - zlo] == q;
      }
    }
  }

  lemma {:induction false} XsMembers(lo: int, n: nat, ylo: int, yn: nat, zlo: int, zn: nat, q: Pos)
    ensures q in Xs(lo, n, ylo, yn, zlo, zn) <==> lo <= q.x < lo + n && ylo <= q.y < ylo + yn && zlo <= q.z < zlo + zn
    decreases n
  {
    if n > 0 {
      var a, b := Xs(lo, n - 1, ylo, yn, zlo, zn), Ys(lo + n - 1, ylo, yn, zlo, zn);
      XsMembers(lo, n - 1, ylo, yn, zlo, zn, q);
      YsMembers(lo + n - 1, ylo, yn, zlo, zn, q);
      var inY := ylo <= q.y < ylo + yn && zlo <= q.z < zlo + zn;
      assert q in a <==> lo <= q.x < lo + n - 1 && inY;
      assert q in b <==> q.x == lo + n - 1 && inY;
      assert q in Xs(lo, n, ylo, yn, zlo, zn) <==> q in a || q in b;
    }
  }

  /** Concatenating two duplicate-free lists with no common element keeps it so. */
  lemma UniqueAppend(a: seq<Pos>, b: seq<Pos>)
    requires Unique(a) && Unique(b)
    requires forall i, j :: 0 <= i < |a| && 0 <= j < |b| ==> a[i] != b[j]
    ensures Unique(a + b)
  {
    var s := a + b;
    forall i, j | 0 <= i < j < |s| ensures s[i] != s[j] {
      if j < |a| {
        assert s[i] == a[i] && s[j] == a[j];
      } else if i >= |a| {
        assert s[i] == b[i - |a|] && s[j] == b[j - |a|];
      } else {
        assert s[i] == a[i] && s[j] == b[j - |a|];
      }
    }
  }

  lemma {:induction false} YsUnique(x: int, lo: int, n: nat, zlo: int, zn: nat)
    ensures Unique(Ys(x, lo, n, zlo, zn))
    ensures forall i :: 0 <= i < |Ys(x, lo, n, zlo, zn)| ==>
      Ys(x, lo, n, zlo, zn)[i].x == x && lo <= Ys(x, lo, n, zlo, zn)[i].y < lo + n
    decreases n
  {
    if n > 0 {
      YsUnique(x, lo, n - 1, zlo, zn);
      var a, b := Ys(x, lo, n - 1, zlo, zn), Zs(x, lo + n - 1, zlo, zn);
      UniqueAppend(a, b);
      assert Ys(x, lo, n, zlo, zn) == a + b;
    }
  }

  lemma {:induction false} XsUnique(lo: int, n: nat, ylo: int, yn: nat, zlo: int, zn: nat)
    ensures Unique(Xs(lo, n, ylo, yn, zlo, zn))
    ensures forall i :: 0 <= i < |Xs(lo, n, ylo, yn, zlo, zn)| ==>
      lo <= Xs(lo, n, ylo, yn, zlo, zn)[i].x < lo + n
    decreases n
  {
    if n > 0 {
      XsUnique(lo, n - 1, ylo, yn, zlo, zn);
      YsUnique(lo + n - 1, ylo, yn, zlo, zn);
      var a, b := Xs(lo, n - 1, ylo, yn, zlo, zn), Ys(lo + n - 1, ylo, yn, zlo, zn);
      UniqueAppend(a, b);
      assert Xs(lo, n, ylo, yn, zlo, zn) == a + b;
    }
  }

  /** `render_range(p)` holds exactly the chunks at Chebyshev distance at most `r`
    * from `p`, each once, `(2r + 1)^3` of them. */
  lemma RenderRangeExact(p: Pos, r: nat)
    ensures forall q :: q in RenderRange(p, r) <==> Cheb(p, q) <= r
    ensures Unique(RenderRange(p, r))
    ensures |RenderRange(p, r)| == (2 * r + 1) * (2 * r + 1) * (2 * r + 1)
  {
    var n := 2 * r + 1;
    forall q ensures q in RenderRange(p, r) <==> Cheb(p, q) <= r {
      XsMembers(p.x - r, n, p.y - r, n, p.z - r, n, q);
    }
    XsUnique(p.x - r, n, p.y - r, n, p.z - r, n);
    XsLength(p.x - r, n, p.y - r, n, p.z - r, n);
  }

  // ---------------------------------------------------------------------
  // `border_range` and `_outer_border_range`
  // ---------------------------------------------------------------------

  /** The six points produced for one pair `(t1, t2)`: the two `x` faces, the two
    * `y` faces and the two `z` faces of the shell at distance `d`. */
  function Six(p: Pos, d: int, t1: int, t2: int): (r: seq<Pos>)
    ensures |r| == 6
  {
    [ Pos(p.x - d, p.y + t1, p.z + t2), Pos(p.x + d, p.y + t1, p.z + t2),
      Pos(p.x + t1, p.y - d, p.z + t2), Pos(p.x + t1, p.y + d, p.z + t2),
      Pos(p.x + t1, p.y + t2, p.z - d), Pos(p.x + t1, p.y + t2, p.z + d) ]
  }

  /** `t2` from `lo` for `n` steps at fixed `t1`. */
  function Strip(p: Pos, d: int, t1: int, lo: int, n: nat): (r: seq<Pos>)
    ensures |r| == 6 * n
    decreases n
  {
    if n == 0 then [] else Strip(p, d, t1, lo, n - 1) + Six(p, d, t1, lo + n - 1)
  }

  /** `t1` from `lo` for `n` steps, each followed by its strip over `[-d, d]`. */
  function Sheets(p: Pos, d: nat, lo: int, n: nat): (r: seq<Pos>)
    ensures |r| == Width(d) * n
    decreases n
  {
    if n == 0 then []
    else
      var r := Sheets(p, d, lo, n - 1) + Strip(p, d, lo + n - 1, Neg(d), 2 * d + 1);
      MulStep(Width(d), n);
      r
  }

  /** The number of entries one value of `t1` contributes. */
  function Width(d: nat): nat {
    6 * (2 * d + 1)
  }

  function Neg(d: nat): int {
    -(d as int)
  }

  lemma MulStep(a: nat, n: nat)
    requires n > 0
    ensures a * (n - 1) + a == a * n
  {
  }

  lemma MulLe(a: nat, k: nat, m: nat)
    requires k < m
    ensures a * k + a <= a * m
  {
    var j := m - k - 1;
    assert a * m == a * k + a + a * j by {
      assert m == k + 1 + j;
    }
  }

  /** The shell at Chebyshev distance `d`, with both parameters over `[-d, d]`. */
  function Shell(p: Pos, d: nat): seq<Pos> {
    Sheets(p, d, Neg(d), 2 * d + 1)
  }

  /** `border_range(p)`: the shell one chunk beyond the render distance. */
  function BorderRange(p: Pos, r: nat): seq<Pos> {
    Shell(p, r + 1)
  }

  /** `_outer_border_range(p)`: the shell two chunks beyond the render distance. */
  function OuterBorderRange(p: Pos, r: nat): seq<Pos> {
    Shell(p, r + 2)
  }

  lemma {:induction false} StripAt(p: Pos, d: int, t1: int, lo: int, n: nat, k: nat, i: nat)
    requires k < n && i < 6
    ensures Strip(p, d, t1, lo, n)[6 * k + i] == Six(p, d, t1, lo + k)[i]
    decreases n
  {
    if k < n - 1 {
      StripAt(p, d, t1, lo, n - 1, k, i);
    }
  }

  lemma {:induction false} SheetsAt(p: Pos, d: nat, lo: int, n: nat, k: nat, j: nat)
    requires k < n && j < Width(d)
    ensures Width(d) * k + j < |Sheets(p, d, lo, n)|
    ensures Sheets(p, d, lo, n)[Width(d) * k + j] == Strip(p, d, lo + k, Neg(d), 2 * d + 1)[j]
    decreases n
  {
    var W := Width(d);
    var a, b := Sheets(p, d, lo, n - 1), Strip(p, d, lo + k, Neg(d), 2 * d + 1);
    MulLe(W, k, n);
    if k < n - 1 {
      SheetsAt(p, d, lo, n - 1, k, j);
      MulLe(W, k, n - 1);
      assert Sheets(p, d, lo, n) == a + Strip(p, d, lo + n - 1, Neg(d), 2 * d + 1);
    } else {
      assert |a| == W * k;
      assert Sheets(p, d, lo, n) == a + b;
    }
  }

  /** Where the point for `(t1, t2)` and slot `i` sits in the shell. */
  function ShellIndex(d: nat, t1: int, t2: int, i: nat): nat
    requires Neg(d) <= t1 <= d && Neg(d) <= t2 <= d
  {
    Width(d) * (t1 + d) + (6 * (t2 + d) + i)
  }

  lemma ShellAt(p: Pos, d: nat, t1: int, t2: int, i: nat)
    requires Neg(d) <= t1 <= d && Neg(d) <= t2 <= d && i < 6
    ensures ShellIndex(d, t1, t2, i) < |Shell(p, d)|
    ensures Shell(p, d)[ShellIndex(d, t1, t2, i)] == Six(p, d, t1, t2)[i]
  {
    var m := 2 * d + 1;
    assert 6 * (t2 + d) + i < Width(d);
    SheetsAt(p, d, Neg(d), m, t1 + d, 6 * (t2 + d) + i);
    StripAt(p, d, t1, Neg(d), m, t2 + d, i);
  }

  lemma SixMembers(p: Pos, d: nat, t1: int, t2: int, q: Pos)
    requires Neg(d) <= t1 <= d && Neg(d) <= t2 <= d && q in Six(p, d, t1, t2)
    ensures Cheb(p, q) == d
  {
  }

  lemma {:induction false} StripSound(p: Pos, d: nat, t1: int, lo: int, n: nat, q: Pos)
    requires Neg(d) <= t1 <= d && Neg(d) <= lo && lo + n <= d + 1 && q in Strip(p, d, t1, lo, n)
    ensures Cheb(p, q) == d
    decreases n
  {
    if q in Strip(p, d, t1, lo, n - 1) {
      StripSound(p, d, t1, lo, n - 1, q);
    } else {
      SixMembers(p, d, t1, lo + n - 1, q);
    }
  }

  lemma {:induction false} SheetsSound(p: Pos, d: nat, lo: int, n: nat, q: Pos)
    requires Neg(d) <= lo && lo + n <= d + 1 && q in Sheets(p, d, lo, n)
    ensures Cheb(p, q) == d
    decreases n
  {
    var a, b := Sheets(p, d, lo, n - 1), Strip(p, d, lo + n - 1, Neg(d), 2 * d + 1);
    assert q in a + b;
    if q in a {
      SheetsSound(p, d, lo, n - 1, q);
    } else {
      StripSound(p, d, lo + n - 1, Neg(d), 2 * d + 1, q);
    }
  }

  /** A point whose `x` offset is at distance `d` is the `x` face slot for its
    * other two offsets. */
  lemma FaceX(p: Pos, d: nat, q: Pos)
    requires Cheb(p, q) == d && Abs(q.x - p.x) == d
    ensures Neg(d) <= q.y - p.y <= d && Neg(d) <= q.z - p.z <= d
    ensures Six(p, d, q.y - p.y, q.z - p.z)[if q.x < p.x then 0 else 1] == q
  {
  }

  /** The same for the `y` face. */
  lemma FaceY(p: Pos, d: nat, q: Pos)
    requires Cheb(p, q) == d && Abs(q.y - p.y) == d
    ensures Neg(d) <= q.x - p.x <= d && Neg(d) <= q.z - p.z <= d
    ensures Six(p, d, q.x - p.x, q.z - p.z)[if q.y < p.y then 2 else 3] == q
  {
  }

  /** The same for the `z` face. */
  lemma FaceZ(p: Pos, d: nat, q: Pos)
    requires Cheb(p, q) == d && Abs(q.z - p.z) == d
    ensures Neg(d) <= q.x - p.x <= d && Neg(d) <= q.y - p.y <= d
    ensures Six(p, d, q.x - p.x, q.y - p.y)[if q.z < p.z then 4 else 5] == q
  {
  }

  /** A point of the shell's box with one coordinate at distance exactly `d` is
    * listed by that coordinate's face. */
  lemma ShellComplete(p: Pos, d: nat, q: Pos)
    requires Cheb(p, q) == d
    ensures q in Shell(p, d)
  {
    var dx, dy, dz := q.x - p.x, q.y - p.y, q.z - p.z;
    if Abs(dx) == d {
      FaceX(p, d, q);
      ShellAt(p, d, dy, dz, if dx < 0 then 0 else 1);
    } else if Abs(dy) == d {
      FaceY(p, d, q);
      ShellAt(p, d, dx, dz, if dy < 0 then 2 else 3);
    } else {
      FaceZ(p, d, q);
      ShellAt(p, d, dx, dy, if dz < 0 then 4 else 5);
    }
  }

  /** The shell at distance `d` holds exactly the points at Chebyshev distance `d`,
    * in `6 (2d + 1)^2` entries. */
  lemma ShellExact(p: Pos, d: nat)
    ensures forall q :: q in Shell(p, d) <==> Cheb(p, q) == d
    ensures |Shell(p, d)| == 6 * (2 * d + 1) * (2 * d + 1)
  {
    forall q ensures q in Shell(p, d) <==> Cheb(p, q) == d {
      if q in Shell(p, d) {
        SheetsSound(p, d, Neg(d), 2 * d + 1, q);
      } else if Cheb(p, q) == d {
        ShellComplete(p, d, q);
      }
    }
  }

  /** A point on an edge of the shell (two coordinates at distance `d`) is listed
    * twice: once by each of the two faces it lies on. */
  lemma ShellEdgeTwice(p: Pos, d: nat, q: Pos)
    requires Cheb(p, q) == d
    requires (Abs(q.x - p.x) == d && Abs(q.y - p.y) == d) || (Abs(q.x - p.x) == d && Abs(q.z - p.z) == d)
      || (Abs(q.y - p.y) == d && Abs(q.z - p.z) == d)
    ensures exists i, j :: 0 <= i < j < |Shell(p, d)| && Shell(p, d)[i] == q && Shell(p, d)[j] == q
  {
    var dx, dy, dz := q.x - p.x, q.y - p.y, q.z - p.z;
    var sx, sy, sz := if dx < 0 then 0 else 1, if dy < 0 then 2 else 3, if dz < 0 then 4 else 5;
    if Abs(dx) == d && Abs(dy) == d {
      FaceX(p, d, q);
      FaceY(p, d, q);
      TwoSlots(p, d, q, dy, dz, sx, dx, dz, sy);
    } else if Abs(dx) == d {
      FaceX(p, d, q);
      FaceZ(p, d, q);
      TwoSlots(p, d, q, dy, dz, sx, dx, dy, sz);
    } else {
      FaceY(p, d, q);
      FaceZ(p, d, q);
      TwoSlots(p, d, q, dx, dz, sy, dx, dy, sz);
    }
  }

  /** A point produced in two different slots sits at two different indices. */
  lemma TwoSlots(p: Pos, d: nat, q: Pos, t1: int, t2: int, s: nat, u1: int, u2: int, s': nat)
    requires Neg(d) <= t1 <= d && Neg(d) <= t2 <= d && Neg(d) <= u1 <= d && Neg(d) <= u2 <= d
    requires s < 6 && s' < 6 && s != s'
    requires Six(p, d, t1, t2)[s] == q && Six(p, d, u1, u2)[s'] == q
    ensures exists i, j :: 0 <= i < j < |Shell(p, d)| && Shell(p, d)[i] == q && Shell(p, d)[j] == q
  {
    var i, j := ShellIndex(d, t1, t2, s), ShellIndex(d, u1, u2, s');
    ShellAt(p, d, t1, t2, s);
    ShellAt(p, d, u1, u2, s');
    SlotOf(d, t1, t2, s);
    SlotOf(d, u1, u2, s');
    if i < j {
      assert 0 <= i < j < |Shell(p, d)| && Shell(p, d)[i] == q && Shell(p, d)[j] == q;
    } else {
      assert 0 <= j < i < |Shell(p, d)| && Shell(p, d)[j] == q && Shell(p, d)[i] == q;
    }
  }

  lemma SlotOf(d: nat, t1: int, t2: int, s: nat)
    requires Neg(d) <= t1 <= d && Neg(d) <= t2 <= d && s < 6
    ensures ShellIndex(d, t1, t2, s) % 6 == s
  {
    var k := (2 * d + 1) * (t1 + d) + (t2 + d);
    assert ShellIndex(d, t1, t2, s) == 6 * k + s;
    DivModSix(k, s);
  }

  lemma DivModSix(q: int, r: int)
    requires 0 <= r < 6
    ensures (6 * q + r) % 6 == r
  {
  }

  /** `border_range(p)`: exactly the chunks at distance `r + 1`, `6 (2r + 3)^2` entries,
    * and none of them in `render_range(p)`. */
  lemma BorderRangeExact(p: Pos, r: nat)
    ensures forall q :: q in BorderRange(p, r) <==> Cheb(p, q) == r + 1
    ensures |BorderRange(p, r)| == 6 * (2 * r + 3) * (2 * r + 3)
    ensures forall q :: q in BorderRange(p, r) ==> q !in RenderRange(p, r)
  {
    ShellExact(p, r + 1);
    RenderRangeExact(p, r);
  }

  /** `_outer_border_range(p)`: exactly the chunks at distance `r + 2`, `6 (2r + 5)^2`
    * entries, disjoint from both the render range and the border. */
  lemma OuterBorderRangeExact(p: Pos, r: nat)
    ensures forall q :: q in OuterBorderRange(p, r) <==> Cheb(p, q) == r + 2
    ensures |OuterBorderRange(p, r)| == 6 * (2 * r + 5) * (2 * r + 5)
    ensures forall q :: q in OuterBorderRange(p, r) ==> q !in RenderRange(p, r) && q !in BorderRange(p, r)
  {
    ShellExact(p, r + 2);
    ShellExact(p, r + 1);
    RenderRangeExact(p, r);
  }
}
