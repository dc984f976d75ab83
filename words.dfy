/**
 * Fixed-width machine words (`u32`, `u64`) as used by the mesher's bit masks.
 *
 * A word is represented by the set of positions of its one bits; for a fixed
 * width this is a bijection with the word's value, and each operator the
 * mesher applies (`|`, `&`, `!`, `<<`, `>>`, `trailing_zeros`,
 * `trailing_ones`, `w & (w - 1)`, `checked_shl(1, h).map_or(!0, |n| n - 1)`)
 * is defined below by its effect on bit positions. Bits shifted past the
 * width are dropped, as in fixed-width arithmetic.
 */
module Words {

  type Word = set<nat>

  /** Every set bit lies below `width`: `w` is a value of that width. */
  ghost predicate Fits(w: Word, width: nat) {
    forall j: nat :: j in w ==> j < width
  }

  /** The word whose bits `lo .. hi - 1` are set. */
  predicate Between(lo: nat, j: nat, hi: nat) {
    lo <= j < hi
  }

  function Range(lo: nat, hi: nat): (r: Word)
    ensures forall j: nat :: j in r <==> lo <= j < hi
    ensures Fits(r, hi)
  {
    set j: nat | j < hi && Between(lo, j, hi)
  }

  /** `1 << k`. */
  function Single(k: nat): Word {
    {k}
  }

  /** `!w` at the given width. */
  function Not(w: Word, width: nat): (r: Word)
    ensures Fits(r, width)
    ensures forall j: nat :: j < width ==> (j in r <==> j !in w)
  {
    set j: nat | j < width && j !in w
  }

  /** `w << s` at the given width: bits moved to `width` or beyond are lost. */
  function Shl(w: Word, s: nat, width: nat): (r: Word)
    ensures Fits(r, width)
    ensures forall j: nat :: j in r <==> s <= j < width && j - s in w
  {
    var r := set i | i in w && i + s < width :: i + s;
    assert forall j: nat :: s <= j < width && j - s in w ==> j in r by {
      forall j | s <= j < width && j - s in w ensures j in r {
        var i := j - s;
        assert i in w && i + s == j;
      }
    }
    r
  }

  /** `w >> s`: bits below `s` are lost. */
  function Shr(w: Word, s: nat): (r: Word)
    ensures forall j: nat :: j in r <==> j + s in w
  {
    var r := set i | i in w && i >= s :: (i - s) as nat;
    assert forall j: nat :: j + s in w ==> j in r by {
      forall j: nat | j + s in w ensures j in r {
        var i := j + s;
        assert i in w && i >= s && (i - s) as nat == j;
      }
    }
    r
  }

  /** The least set position at or above `k`, or `width` when there is none. */
  function TrailingZerosFrom(w: Word, k: nat, width: nat): (r: nat)
    requires k <= width
    ensures k <= r <= width
    ensures forall j: nat :: k <= j < r ==> j !in w
    ensures r < width ==> r in w
    decreases width - k
  {
    if k == width then width
    else if k in w then k
    else TrailingZerosFrom(w, k + 1, width)
  }

  /** `w.trailing_zeros()`: the position of the lowest set bit, or `width` for a zero word. */
  function TrailingZeros(w: Word, width: nat): (r: nat)
    ensures r <= width
    ensures forall j: nat :: j < r ==> j !in w
    ensures r < width ==> r in w
  {
    TrailingZerosFrom(w, 0, width)
  }

  /** `w.trailing_ones()`: the number of consecutive set bits from bit 0. */
  function TrailingOnes(w: Word, width: nat): (r: nat)
    ensures r <= width
    ensures forall j: nat :: j < r ==> j in w
    ensures r < width ==> r !in w
  {
    TrailingZeros(Not(w, width), width)
  }

  /** `w & (w - 1)` for a non-zero word: the lowest set bit is cleared. */
  function ClearLowest(w: Word, width: nat): (r: Word)
    requires Fits(w, width) && w != {}
    ensures forall j: nat :: j in r <==> j in w && j != TrailingZeros(w, width)
  {
    w - {TrailingZeros(w, width)}
  }

  /** `u32::checked_shl(1, h).map_or(!0, |n| n - 1)` at the given width:
    * the low `h` bits, or all bits when the shift would overflow. */
  function LowMask(h: nat, width: nat): (r: Word)
    ensures forall j: nat :: j in r <==> j < h && j < width
  {
    if h < width then Range(0, h) else Range(0, width)
  }

  /** A zero word has no set bit below its width, and the converse. */
  lemma ZeroIff(w: Word, width: nat)
    requires Fits(w, width)
    ensures w == {} <==> TrailingZeros(w, width) == width
  {
    if w != {} {
      var j :| j in w;
      assert TrailingZeros(w, width) <= j < width;
    }
  }
}
