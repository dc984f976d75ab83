/**
 * Vertex packing. `compress_data` builds a 32-bit word by or-ing in the face id,
 * then shifting left by 6 and or-ing in x, y and z in turn, then shifting left
 * by 4 and or-ing in the voxel id; the vertex shader's `unpack_data` takes the
 * fields back out with masks and right shifts.
 *
 * Words are non-negative integers here; `|` and `&` are defined bit by bit,
 * a left shift of a `u32` drops the bits pushed past bit 31, and a right shift
 * of a non-negative value is division by a power of two.
 */
module Packing {
  import opened Settings
  import opened Faces

  const U32_LIMIT: nat := 0x1_0000_0000

  function Pow2(k: nat): (r: nat)
    ensures r >= 1
  {
    if k == 0 then 1 else 2 * Pow2(k - 1)
  }

  lemma Pow2Values()
    ensures Pow2(4) == 16 && Pow2(6) == 64 && Pow2(10) == 1024 && Pow2(16) == 65536 && Pow2(22) == 4194304
  {
    assert Pow2(2) == 4;
    assert Pow2(4) == 16;
    assert Pow2(6) == 64;
    assert Pow2(8) == 256;
    assert Pow2(10) == 1024;
    assert Pow2(12) == 4096;
    assert Pow2(14) == 16384;
    assert Pow2(16) == 65536;
    assert Pow2(18) == 262144;
    assert Pow2(20) == 1048576;
  }

  /** Bitwise or of two non-negative integers. */
  function BitOr(a: nat, b: nat): nat
    decreases a + b
  {
    if a == 0 then b
    else if b == 0 then a
    else 2 * BitOr(a / 2, b / 2) + (if a % 2 == 1 || b % 2 == 1 then 1 else 0)
  }

  /** Bitwise and of two non-negative integers. */
  function BitAnd(a: nat, b: nat): nat
    decreases a + b
  {
    if a == 0 || b == 0 then 0
    else 2 * BitAnd(a / 2, b / 2) + (if a % 2 == 1 && b % 2 == 1 then 1 else 0)
  }

  /** `a << s` on a `u32`. */
  function Shl32(a: nat, s: nat): (r: nat)
    ensures r < U32_LIMIT
  {
    (a * Pow2(s)) % U32_LIMIT
  }

  /** Or-ing a value below `2^k` into a multiple of `2^k` is addition. */
  lemma {:induction false} OrDisjoint(a: nat, b: nat, k: nat)
    requires b < Pow2(k)
    ensures BitOr(a * Pow2(k), b) == a * Pow2(k) + b
    decreases k
  {
    if k == 0 || a == 0 || b == 0 {
    } else {
      var A := a * Pow2(k);
      assert A == 2 * (a * Pow2(k - 1));
      assert A / 2 == a * Pow2(k - 1) && A % 2 == 0;
      OrDisjoint(a, b / 2, k - 1);
    }
  }

  /** And-ing with `2^k - 1` keeps the low `k` bits. */
  lemma {:induction false} AndLowMask(d: nat, k: nat)
    ensures BitAnd(d, Pow2(k) - 1) == d % Pow2(k)
    decreases k
  {
    if k == 0 || d == 0 {
    } else {
      var m := Pow2(k) - 1;
      assert m == 2 * (Pow2(k - 1) - 1) + 1;
      assert m / 2 == Pow2(k - 1) - 1 && m % 2 == 1;
      AndLowMask(d / 2, k - 1);
      DivModPow2(d, k);
    }
  }

  lemma MulAtLeast(a: int, n: int)
    requires a >= 1 && n > 0
    ensures a * n >= n
  {
  }

  /** Division with remainder is unique. */
  lemma DivModUnique(d: int, n: int, q: int, r: int)
    requires n > 0 && 0 <= r < n && d == q * n + r
    ensures d / n == q && d % n == r
  {
    var q0, r0 := d / n, d % n;
    assert d == q0 * n + r0;
    assert (q - q0) * n == r0 - r;
    if q > q0 {
      MulAtLeast(q - q0, n);
    } else if q < q0 {
      MulAtLeast(q0 - q, n);
    }
  }

  lemma DivModPow2(d: nat, k: nat)
    requires k > 0
    ensures d % Pow2(k) == 2 * ((d / 2) % Pow2(k - 1)) + d % 2
  {
    var p := Pow2(k - 1);
    var q := (d / 2) / p;
    var r := (d / 2) % p;
    assert d / 2 == q * p + r;
    assert q * (2 * p) == 2 * (q * p);
    assert d == q * (2 * p) + (2 * r + d % 2);
    DivModUnique(d, 2 * p, q, 2 * r + d % 2);
  }

  /** `res <<= k; res |= b` on a `u32`. */
  function Stage(res: nat, k: nat, b: nat): (r: nat)
    ensures r < U32_LIMIT
  {
    BitOr(Shl32(res, k), b) % U32_LIMIT
  }

  /** `compress_data`: the face id, then x, y and z after shifts by 6, then the voxel
    * id after a shift by 4. */
  function CompressData(x: nat, y: nat, z: nat, face: Face, voxel: Voxel): nat
    requires x < U32_LIMIT && y < U32_LIMIT && z < U32_LIMIT
  {
    var res := BitOr(0, Id(face));
    Stage(Stage(Stage(Stage(res, 6, x), 6, y), 6, z), 4, VoxelId(voxel))
  }

  /** One stage of `compress_data` that pushes nothing past bit 31 is `a * 2^k + b`. */
  lemma ShiftOr(a: nat, k: nat, b: nat)
    requires b < Pow2(k) && a * Pow2(k) + b < U32_LIMIT
    ensures Stage(a, k, b) == a * Pow2(k) + b
  {
    DivModUnique(a * Pow2(k), U32_LIMIT, 0, a * Pow2(k));
    OrDisjoint(a, b, k);
    DivModUnique(a * Pow2(k) + b, U32_LIMIT, 0, a * Pow2(k) + b);
  }

  /** With every coordinate below 64 the fields do not overlap: the packed word is
    * `face << 22 | x << 16 | y << 10 | z << 4 | voxel` and fits in 25 bits. */
  lemma CompressFields(x: nat, y: nat, z: nat, face: Face, voxel: Voxel)
    requires x < 64 && y < 64 && z < 64
    ensures CompressData(x, y, z, face, voxel)
      == Id(face) * 4194304 + x * 65536 + y * 1024 + z * 16 + VoxelId(voxel)
    ensures CompressData(x, y, z, face, voxel) < 0x200_0000
  {
    Pow2Values();
    var f := Id(face);
    var v := VoxelId(voxel);
    assert BitOr(0, f) == f;
    var r1 := f * 64 + x;
    ShiftOr(f, 6, x);
    assert Stage(f, 6, x) == r1;
    var r2 := r1 * 64 + y;
    ShiftOr(r1, 6, y);
    assert Stage(r1, 6, y) == r2;
    var r3 := r2 * 64 + z;
    assert r1 < 384 && r2 < 24576 && r3 < 1572864;
    ShiftOr(r2, 6, z);
    assert Stage(r2, 6, z) == r3;
    ShiftOr(r3, 4, v);
    assert Stage(r3, 4, v) == r3 * 16 + v;
  }

  /** The fields `unpack_data` recovers from a packed vertex. */
  datatype Unpacked = Unpacked(x: nat, y: nat, z: nat, faceId: nat, voxelId: nat)

  /** `unpack_data`: mask off the voxel id, shift right by 4, then mask off z, y and x
    * with a right shift by 6 after each; what remains is the face id. */
  function UnpackData(d: nat): Unpacked {
    var voxelId := BitAnd(d, Pow2(4) - 1);
    var d1 := d / Pow2(4);
    var z := BitAnd(d1, Pow2(6) - 1);
    var d2 := d1 / Pow2(6);
    var y := BitAnd(d2, Pow2(6) - 1);
    var d3 := d2 / Pow2(6);
    var x := BitAnd(d3, Pow2(6) - 1);
    var d4 := d3 / Pow2(6);
    Unpacked(x, y, z, d4, voxelId)
  }

  lemma DigitsOf(f: nat, x: nat, y: nat, z: nat, v: nat)
    requires x < 64 && y < 64 && z < 64 && v < 16
    ensures var d := f * 4194304 + x * 65536 + y * 1024 + z * 16 + v;
      d % 16 == v && d / 16 == f * 262144 + x * 4096 + y * 64 + z
      && (d / 16) % 64 == z && (d / 16) / 64 == f * 4096 + x * 64 + y
      && ((d / 16) / 64) % 64 == y && ((d / 16) / 64) / 64 == f * 64 + x
      && (((d / 16) / 64) / 64) % 64 == x && (((d / 16) / 64) / 64) / 64 == f
  {
    var d := f * 4194304 + x * 65536 + y * 1024 + z * 16 + v;
    DivModUnique(d, 16, f * 262144 + x * 4096 + y * 64 + z, v);
    DivModUnique(d / 16, 64, f * 4096 + x * 64 + y, z);
    DivModUnique(d / 16 / 64, 64, f * 64 + x, y);
    DivModUnique(d / 16 / 64 / 64, 64, f, x);
  }

  /** Decoding a word laid out as `f << 22 | x << 16 | y << 10 | z << 4 | v` gives
    * back its five fields. */
  lemma UnpackDigits(f: nat, x: nat, y: nat, z: nat, v: nat)
    requires x < 64 && y < 64 && z < 64 && v < 16
    ensures UnpackData(f * 4194304 + x * 65536 + y * 1024 + z * 16 + v) == Unpacked(x, y, z, f, v)
  {
    Pow2Values();
    var d := f * 4194304 + x * 65536 + y * 1024 + z * 16 + v;
    DigitsOf(f, x, y, z, v);
    var d1 := d / 16;
    var d2 := d1 / 64;
    var d3 := d2 / 64;
    AndLowMask(d, 4);
    assert BitAnd(d, Pow2(4) - 1) == v;
    AndLowMask(d1, 6);
    assert BitAnd(d1, Pow2(6) - 1) == z;
    AndLowMask(d2, 6);
    assert BitAnd(d2, Pow2(6) - 1) == y;
    AndLowMask(d3, 6);
    assert BitAnd(d3, Pow2(6) - 1) == x;
  }

  /** Decoding a packed vertex gives back every field it was packed from. */
  lemma UnpackCompress(x: nat, y: nat, z: nat, face: Face, voxel: Voxel)
    requires x < 64 && y < 64 && z < 64
    ensures UnpackData(CompressData(x, y, z, face, voxel)) == Unpacked(x, y, z, Id(face), VoxelId(voxel))
  {
    CompressFields(x, y, z, face, voxel);
    UnpackDigits(Id(face), x, y, z, VoxelId(voxel));
  }
}
