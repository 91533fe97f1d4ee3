/**
 * Rust's pointer-sized integers on a 64-bit target, and the overflow-checked
 * arithmetic the cursor relies on.  Dafny integers are unbounded, so the
 * wrap-around that the standard library detects is written out here.
 */
module MachineWords {
  import opened Wrappers

  const WORD_MODULUS: int := 0x1_0000_0000_0000_0000
  const USIZE_MAX: int := WORD_MODULUS - 1
  const ISIZE_MIN: int := -0x8000_0000_0000_0000
  const ISIZE_MAX: int := 0x7FFF_FFFF_FFFF_FFFF

  type usize = x: int | 0 <= x <= USIZE_MAX
  type isize = x: int | ISIZE_MIN <= x <= ISIZE_MAX

  /** `k as usize`: the two's-complement reinterpretation of a signed word. */
  function AsUsize(k: isize): (u: usize)
    ensures u == k || u == k + WORD_MODULUS  // the same value modulo 2^64
    ensures k >= 0 ==> u == k
  {
    if k < 0 then k + WORD_MODULUS else k
  }

  /** `usize::overflowing_add`: the wrapped sum and whether a carry left the word. */
  function OverflowingAdd(a: usize, b: usize): (r: (usize, bool))
    ensures r.0 == a + b || r.0 == a + b - WORD_MODULUS  // the sum modulo 2^64
    ensures r.1 <==> a + b > USIZE_MAX
  {
    if a + b <= USIZE_MAX then (a + b, false) else (a + b - WORD_MODULUS, true)
  }

  /**
   * `usize::checked_add_signed`, computed the way the standard library does:
   * add the reinterpreted offset with wrap-around, then a carry means overflow
   * exactly when the offset was non-negative, and no carry means underflow
   * exactly when it was negative.  The contract is the exact meaning.
   */
  function CheckedAddSigned(a: usize, k: isize): (r: Option<usize>)
    ensures r.Some? <==> 0 <= a + k <= USIZE_MAX
    ensures r.Some? ==> r.value == a + k
  {
    var (sum, carried) := OverflowingAdd(a, AsUsize(k));
    if carried != (k < 0) then None else Some(sum)
  }

  /** `usize::checked_sub`: absent exactly when the difference would be negative. */
  function CheckedSub(a: usize, b: usize): (r: Option<usize>)
    ensures r.Some? <==> b <= a
    ensures r.Some? ==> r.value == a - b
  {
    if a < b then None else Some(a - b)
  }
}
