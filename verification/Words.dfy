/** Machine words, alignment and owner masks, as every package of the suite uses them.

    A `uintptr` or `uint64` is a natural number below `WORD`.  A pointer into the metadata region
    is the raw address of the record it points to, and `NIL` is the null pointer.  An owner mask is
    the set of the bit positions that are set in the `uint64`: `|` is union, `&^` is difference and
    a zero mask is the empty set.
 */
module Words {
  const WORD: nat := 0x1_0000_0000_0000_0000

  /** The largest int64. */
  const MAX_INT: nat := 0x7FFF_FFFF_FFFF_FFFF

  type Byte = b: int | 0 <= b < 256

  type Ptr = nat
  const NIL: Ptr := 0

  type Mask = set<nat>

  datatype Result<T> = Ok(value: T) | Err(error: Error)

  datatype Error = ErrInvalidSize | ErrOutOfMemory | ErrNotFound | ErrClosed

  /** Rounds `value` up to a multiple of `alignment` in 64-bit arithmetic: the addition wraps. */
  function AlignUp(value: nat, alignment: nat): (r: nat)
    requires alignment == 8 || alignment == 64
    ensures r % alignment == 0
    ensures value + alignment <= WORD ==> value <= r < value + alignment
    ensures value < WORD < value + alignment ==> r == 0
  {
    var sum := (value + alignment - 1) % WORD;
    Wrapped(value + alignment - 1, sum);
    Down8(sum, sum / 8 * 8);
    Down64(sum, sum / 64 * 64);
    if alignment == 8 then sum / 8 * 8 else sum / 64 * 64
  }

  lemma {:induction false} Wrapped(x: nat, r: nat)
    requires r == x % WORD
    ensures x < WORD ==> r == x
    ensures WORD <= x < 2 * WORD ==> r == x - WORD
  {
  }

  lemma {:induction false} Down8(x: nat, r: nat)
    requires r == x / 8 * 8
    ensures r % 8 == 0 && x - 8 < r <= x
  {
  }

  lemma {:induction false} Down64(x: nat, r: nat)
    requires r == x / 64 * 64
    ensures r % 64 == 0 && x - 64 < r <= x
  {
  }

  /** A caller that names no owner gets owner bit 0. */
  function NormalizeMask(mask: Mask): (r: Mask)
    ensures mask != {} ==> r == mask
    ensures mask == {} ==> r == {0}
  {
    if mask == {} then {0} else mask
  }
}
