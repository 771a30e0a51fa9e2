/**
 * The vector helpers of `bLib` (util/bLibBase.h).  Its string helpers are the
 * same code as `klib`'s and are modelled in module KLib.
 */
module BLib {
  import opened Wrappers
  import FlatGrid
  import KLib

  /**
   * `int size = vec.size()`: the size converted to a 32-bit signed `int`.
   * The conversion keeps the value modulo 2^32 (two's complement, as C++20
   * requires and every earlier compiler does), so a size of 2^31 or more
   * comes out smaller, zero or negative.
   */
  function SizeAsInt(n: nat): (r: KLib.Int32)
    ensures n < 0x8000_0000 ==> r == n
    ensures 0 <= r ==> r <= n
    ensures (n - r) % FlatGrid.U32 == 0
  {
    var w := n % FlatGrid.U32;
    if w < 0x8000_0000 then w else w - FlatGrid.U32
  }

  /**
   * `erase_fast(vec, int id)`: an id outside `[0, size)` is refused with the
   * vector unchanged; otherwise slot `id` takes the element at `size - 1` and
   * the vector is resized to `size - 1`.  With the size read into an `int`,
   * the call acts on the first `size` elements as if they were the whole
   * vector, and a vector whose `int` size is 0 or negative refuses every id.
   */
  method EraseFast<T>(vec: seq<T>, id: KLib.Int32) returns (ok: bool, vec': seq<T>)
    ensures ok <==> 0 <= id < SizeAsInt(|vec|)
    ensures !ok ==> vec' == vec
    ensures ok ==> vec' == KLib.SwapRemove(vec[..SizeAsInt(|vec|)], id)
    ensures ok && |vec| < 0x8000_0000 ==> vec' == KLib.SwapRemove(vec, id)
  {
    var size: KLib.Int32 := SizeAsInt(|vec|);
    if id < 0 || id >= size {
      return false, vec;
    }
    vec' := vec[id := vec[size - 1]];
    vec' := vec'[..size - 1];
    return true, vec';
  }

  /**
   * `erase_fast(vec, iterator itr)`: the iterator is a position in
   * `[0, size]`, `size` being `end()`, which is refused (`Ok(false)`).
   * Otherwise the iterator's slot takes `vec.back()` and the vector is resized
   * to `size - 1`, `size` being the `int` size.  When that `int` size is 0 or
   * negative, `size - 1` becomes a huge `size_t`, and `resize` throws
   * `std::length_error` (`Err`) after the slot was already overwritten.
   */
  method EraseFastAt<T>(vec: seq<T>, itr: nat) returns (r: Result<bool, string>, vec': seq<T>)
    requires itr <= |vec|
    ensures r == Ok(false) <==> itr == |vec|
    ensures r.Err? <==> itr < |vec| && SizeAsInt(|vec|) <= 0
    ensures r == Ok(false) ==> vec' == vec
    ensures r.Err? ==> vec' == vec[itr := vec[|vec| - 1]]
    ensures r == Ok(true) ==> vec' == KLib.SwapRemove(vec, itr)[..SizeAsInt(|vec|) - 1]
    ensures r == Ok(true) && |vec| < 0x8000_0000 ==> vec' == KLib.SwapRemove(vec, itr)
  {
    var size: KLib.Int32 := SizeAsInt(|vec|);
    if itr == |vec| {
      return Ok(false), vec;
    }
    vec' := vec[itr := vec[|vec| - 1]];
    if size - 1 < 0 {
      return Err("std::length_error"), vec';
    }
    vec' := vec'[..size - 1];
    return Ok(true), vec';
  }
}
