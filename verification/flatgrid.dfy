/**
 * `Vector2D<T>` (util/Vector2D.h): a two-dimensional grid stored in one flat
 * vector.  In the x-major layout the cells of one column (same x) are
 * consecutive; in the y-major layout the cells of one row are.
 *
 * `IndexType` is a 32-bit unsigned integer, so every index computation here
 * wraps modulo 2^32, as the C++ arithmetic does.
 */
module FlatGrid {
  import opened Wrappers

  const U32: nat := 0x1_0000_0000

  /** `IndexType`. */
  type Index = n: nat | n < U32

  /** `Vector2D::InitListType`: which coordinate varies fastest in the flat vector. */
  datatype Layout = XMajor | YMajor

  /** `xyToIndex(x, y)`, in 32-bit unsigned arithmetic. */
  function XyToIndex(layout: Layout, xSize: Index, ySize: Index, x: Index, y: Index): Index
  {
    match layout
    case XMajor => (ySize * x + y) % U32
    case YMajor => (xSize * y + x) % U32
  }

  /** The size that divides an index in this layout must not be 0 (C++ division by zero is undefined). */
  predicate Divisible(layout: Layout, xSize: Index, ySize: Index)
  {
    match layout
    case XMajor => ySize > 0
    case YMajor => xSize > 0
  }

  /** `idxToX(idx)`. */
  function IdxToX(layout: Layout, xSize: Index, ySize: Index, idx: Index): Index
    requires Divisible(layout, xSize, ySize)
  {
    match layout
    case XMajor => idx / ySize
    case YMajor => idx % xSize
  }

  /** `idxToY(idx)`. */
  function IdxToY(layout: Layout, xSize: Index, ySize: Index, idx: Index): Index
    requires Divisible(layout, xSize, ySize)
  {
    match layout
    case XMajor => idx % ySize
    case YMajor => idx / xSize
  }

  // ---------------------------------------------------------------------------
  // Arithmetic facts used below
  // ---------------------------------------------------------------------------

  /** Multiplication by a natural number is monotonic. */
  lemma {:induction false} MulMonotonic(w: nat, a: nat, b: nat)
    requires a <= b
    ensures w * a <= w * b
    decreases b - a
  {
    if a < b {
      MulMonotonic(w, a, b - 1);
      assert w * b == w * (b - 1) + w;
    }
  }

  /** Stepping the factor up by one or more adds at least `w`. */
  lemma {:induction false} MulStep(w: nat, a: nat, b: nat)
    requires a < b
    ensures w * a + w <= w * b
  {
    MulMonotonic(w, a + 1, b);
    assert w * (a + 1) == w * a + w;
  }

  /** A row-major position `w * q + r` with `q < h`, `r < w` lies below `w * h`. */
  lemma {:induction false} PositionBelowProduct(w: nat, h: nat, q: nat, r: nat)
    requires q < h && r < w
    ensures w * q + r < w * h
  {
    MulMonotonic(w, q + 1, h);
    assert w * (q + 1) == w * q + w;
  }

  /** Division and remainder by `w` recover `q` and `r` from `w * q + r`. */
  lemma {:induction false} DivModOfPosition(w: nat, q: nat, r: nat)
    requires r < w
    ensures (w * q + r) / w == q && (w * q + r) % w == r
  {
    var a := w * q + r;
    var q' := a / w;
    assert a == w * q' + a % w;
    if q' > q {
      MulStep(w, q, q');
      assert false;
    } else if q' < q {
      MulStep(w, q', q);
      assert false;
    }
  }

  /** An index below `w * h` splits into a quotient below `h` and a remainder below `w`. */
  lemma {:induction false} SplitBelowProduct(w: nat, h: nat, idx: nat)
    requires w > 0 && idx < w * h
    ensures idx / w < h && idx % w < w && w * (idx / w) + idx % w == idx
  {
    var q := idx / w;
    assert idx == w * q + idx % w;
    if q >= h {
      MulMonotonic(w, h, q);
    }
  }

  // ---------------------------------------------------------------------------
  // Index conversions are inverse to each other on the grid
  // ---------------------------------------------------------------------------

  /** A cell inside the grid gets an index inside the flat vector, and the index gives the cell back. */
  lemma {:induction false} XyToIndexInRange(layout: Layout, xSize: Index, ySize: Index, x: Index, y: Index)
    requires x < xSize && y < ySize && xSize * ySize <= U32
    ensures Divisible(layout, xSize, ySize)
    ensures XyToIndex(layout, xSize, ySize, x, y) < xSize * ySize
    ensures XyToIndex(layout, xSize, ySize, x, y) ==
      if layout == XMajor then ySize * x + y else xSize * y + x
    ensures IdxToX(layout, xSize, ySize, XyToIndex(layout, xSize, ySize, x, y)) == x
    ensures IdxToY(layout, xSize, ySize, XyToIndex(layout, xSize, ySize, x, y)) == y
  {
    var v := if layout == XMajor then ySize * x + y else xSize * y + x;
    if layout == XMajor {
      PositionBelowProduct(ySize, xSize, x, y);
      assert ySize * xSize == xSize * ySize;
      DivModOfPosition(ySize, x, y);
    } else {
      PositionBelowProduct(xSize, ySize, y, x);
      DivModOfPosition(xSize, y, x);
    }
    assert v < xSize * ySize;
    assert XyToIndex(layout, xSize, ySize, x, y) == v;
  }

  /** Every index of the flat vector names a grid cell, and that cell's index is the index. */
  lemma {:induction false} IdxToXYRoundTrip(layout: Layout, xSize: Index, ySize: Index, idx: Index)
    requires idx < xSize * ySize
    ensures Divisible(layout, xSize, ySize)
    ensures IdxToX(layout, xSize, ySize, idx) < xSize && IdxToY(layout, xSize, ySize, idx) < ySize
    ensures XyToIndex(layout, xSize, ySize, IdxToX(layout, xSize, ySize, idx), IdxToY(layout, xSize, ySize, idx)) == idx
  {
    match layout
    case XMajor =>
      assert xSize * ySize == ySize * xSize;
      SplitBelowProduct(ySize, xSize, idx);
    case YMajor =>
      SplitBelowProduct(xSize, ySize, idx);
  }

  /**
   * In a grid of more than 2^32 cells the 32-bit index wraps: in either
   * layout the cell at linear position 2^32 lies inside the grid, differs
   * from (0, 0), and gets the same index 0.
   */
  lemma {:induction false} XyToIndexWrapsPastIndexRange(xSize: Index, ySize: Index)
    requires xSize * ySize > U32
    ensures xSize > 0 && ySize > 0
    ensures U32 / ySize < xSize && U32 % ySize < ySize && (U32 / ySize, U32 % ySize) != (0, 0) &&
      XyToIndex(XMajor, xSize, ySize, U32 / ySize, U32 % ySize) == XyToIndex(XMajor, xSize, ySize, 0, 0)
    ensures U32 % xSize < xSize && U32 / xSize < ySize && (U32 % xSize, U32 / xSize) != (0, 0) &&
      XyToIndex(YMajor, xSize, ySize, U32 % xSize, U32 / xSize) == XyToIndex(YMajor, xSize, ySize, 0, 0)
  {
    assert ySize * xSize == xSize * ySize;
    PositionPastRange(ySize, xSize);
    PositionPastRange(xSize, ySize);
  }

  /** With stride `w` and `h` strides, linear position 2^32 lies inside `w * h > 2^32` cells and wraps to 0. */
  lemma {:induction false} PositionPastRange(w: Index, h: Index)
    requires w * h > U32
    ensures w > 0 && U32 / w < h && U32 % w < w
    ensures w * (U32 / w) + U32 % w == U32
  {
    var q := U32 / w;
    assert w * q + U32 % w == U32;
    if q >= h {
      MulMonotonic(w, h, q);
    }
  }

  /** The list cell `idx` of a y-major initializer list lands at this x-major index. */
  function YMajorPlacement(xSize: Index, ySize: Index, idx: Index): (r: Index)
    requires xSize > 0
    ensures xSize * ySize <= U32 && idx < xSize * ySize ==> r < xSize * ySize
  {
    if xSize * ySize <= U32 && idx < xSize * ySize then
      IdxToXYRoundTrip(YMajor, xSize, ySize, idx);
      XyToIndexInRange(XMajor, xSize, ySize, idx % xSize, idx / xSize);
      XyToIndex(XMajor, xSize, ySize, idx % xSize, idx / xSize)
    else
      XyToIndex(XMajor, xSize, ySize, idx % xSize, idx / xSize)
  }

  /** Whatever the size, the placement is the x-major index of `(idx % xSize, idx / xSize)`. */
  lemma {:induction false} YMajorPlacementIsIndex(xSize: Index, ySize: Index, idx: Index)
    requires xSize > 0
    ensures YMajorPlacement(xSize, ySize, idx) == XyToIndex(XMajor, xSize, ySize, idx % xSize, idx / xSize)
  {
  }

  /** Different list cells land at different places inside the grid. */
  lemma {:induction false} YMajorPlacementInjective(xSize: Index, ySize: Index, i: Index, j: Index)
    requires xSize * ySize <= U32 && i < xSize * ySize && j < xSize * ySize
    ensures xSize > 0
    ensures YMajorPlacement(xSize, ySize, i) == YMajorPlacement(xSize, ySize, j) ==> i == j
  {
    IdxToXYRoundTrip(YMajor, xSize, ySize, i);
    IdxToXYRoundTrip(YMajor, xSize, ySize, j);
    XyToIndexInRange(XMajor, xSize, ySize, i % xSize, i / xSize);
    XyToIndexInRange(XMajor, xSize, ySize, j % xSize, j / xSize);
  }

  /** The grid cell (cx, cy) receives list cell `xSize * cy + cx`. */
  lemma {:induction false} YMajorPlacementOfCell(xSize: Index, ySize: Index, cx: Index, cy: Index)
    requires xSize * ySize <= U32 && cx < xSize && cy < ySize
    ensures xSize > 0 && XyToIndex(YMajor, xSize, ySize, cx, cy) < xSize * ySize
    ensures YMajorPlacement(xSize, ySize, XyToIndex(YMajor, xSize, ySize, cx, cy)) == XyToIndex(XMajor, xSize, ySize, cx, cy)
  {
    XyToIndexInRange(YMajor, xSize, ySize, cx, cy);
  }

  /** A grid size inside the 32-bit range is its own wrapped value. */
  lemma {:induction false} BelowRangeUnwrapped(x: Index, y: Index)
    requires x * y < U32
    ensures (x * y) % U32 == x * y
  {
  }

  /** A grid with cells has a positive width. */
  lemma {:induction false} NonEmptyHasWidth(x: Index, y: Index, n: nat)
    requires n < (x * y) % U32
    ensures x > 0
  {
  }

  /**
   * The flat vector of the y-major initializer after list cells `0 .. k-1`
   * were written through `at`, starting from `|l|` copies of `zero`; `None`
   * once a write lands past the end, where `at` throws `std::out_of_range`.
   */
  function YMajorFill<T>(x: Index, y: Index, l: seq<T>, zero: T, k: nat): (r: Option<seq<T>>)
    requires |l| == (x * y) % U32 && k <= |l|
    ensures r.Some? ==> |r.value| == |l|
    decreases k
  {
    if k == 0 then Some(Copies(|l|, zero))
    else
      NonEmptyHasWidth(x, y, k - 1);
      match YMajorFill(x, y, l, zero, k - 1)
      case None => None
      case Some(v) =>
        var p := YMajorPlacement(x, y, k - 1);
        if p < |v| then Some(v[p := l[k - 1]]) else None
  }

  /**
   * One more write: it lands inside the vector and extends the fill, or it
   * lands past the end, in which case the whole fill throws, which only a
   * wrapped size allows.
   */
  lemma {:induction false} YMajorFillStep<T>(x: Index, y: Index, l: seq<T>, zero: T, k: nat, v: seq<T>)
    requires |l| == (x * y) % U32 && k < |l| && YMajorFill(x, y, l, zero, k) == Some(v)
    ensures x > 0
    ensures YMajorPlacement(x, y, k) < |v| ==> YMajorFill(x, y, l, zero, k + 1) == Some(v[YMajorPlacement(x, y, k) := l[k]])
    ensures YMajorPlacement(x, y, k) >= |v| ==> YMajorFill(x, y, l, zero, |l|).None? && x * y >= U32
  {
    NonEmptyHasWidth(x, y, k);
    if YMajorPlacement(x, y, k) >= |v| {
      YMajorFillSucceedsIff(x, y, l, zero, |l|);
      assert !AllPlaced(x, y, |l|, |l|) by {
        var last: Index := k;
        assert !(x > 0 && YMajorPlacement(x, y, last) < |l|);
      }
      WrappedIfNotAllPlaced(x, y, |l|);
    }
  }

  /** Without wrap-around every list cell lands inside the vector. */
  lemma {:induction false} NoWrapAllPlaced(x: Index, y: Index, n: nat)
    requires x * y < U32 && n == (x * y) % U32
    ensures AllPlaced(x, y, n, n)
  {
    BelowRangeUnwrapped(x, y);
    forall i: Index | i < n
      ensures x > 0 && YMajorPlacement(x, y, i) < n
    {
      NonEmptyHasWidth(x, y, i);
    }
  }

  /** A list cell that lands past the end means the size wrapped. */
  lemma {:induction false} WrappedIfNotAllPlaced(x: Index, y: Index, n: nat)
    requires n == (x * y) % U32 && !AllPlaced(x, y, n, n)
    ensures x * y >= U32
  {
    if x * y < U32 {
      NoWrapAllPlaced(x, y, n);
      assert false;
    }
  }

  /** List cells `0 .. k-1` all land inside a vector of `n` cells. */
  predicate AllPlaced(x: Index, y: Index, n: nat, k: nat)
  {
    forall i: Index :: i < k ==> x > 0 && YMajorPlacement(x, y, i) < n
  }

  /** The writes succeed exactly when every list cell lands inside the vector. */
  lemma {:induction false} YMajorFillSucceedsIff<T>(x: Index, y: Index, l: seq<T>, zero: T, k: nat)
    requires |l| == (x * y) % U32 && k <= |l|
    ensures YMajorFill(x, y, l, zero, k).Some? <==> AllPlaced(x, y, |l|, k)
  {
    if k > 0 {
      YMajorFillSucceedsIff(x, y, l, zero, k - 1);
      NonEmptyHasWidth(x, y, k - 1);
      var last: Index := k - 1;
      if YMajorFill(x, y, l, zero, k - 1).Some? {
        assert AllPlaced(x, y, |l|, k) <==> YMajorPlacement(x, y, last) < |l| by {
          if YMajorPlacement(x, y, last) < |l| {
            forall i: Index | i < k
              ensures x > 0 && YMajorPlacement(x, y, i) < |l|
            {
              if i < last {
                assert AllPlaced(x, y, |l|, k - 1);
              }
            }
          }
        }
      } else {
        assert !AllPlaced(x, y, |l|, k - 1);
      }
    }
  }

  /** Without wrap-around every write succeeds and list cell `i` ends up at its y-major placement. */
  lemma {:induction false} YMajorFillPlacesList<T>(x: Index, y: Index, l: seq<T>, zero: T, k: nat)
    requires x * y < U32 && |l| == x * y && k <= |l|
    ensures YMajorFill(x, y, l, zero, k).Some?
    ensures forall i: Index :: i < k ==> x > 0 && YMajorFill(x, y, l, zero, k).value[YMajorPlacement(x, y, i)] == l[i]
  {
    BelowRangeUnwrapped(x, y);
    if k > 0 {
      YMajorFillPlacesList(x, y, l, zero, k - 1);
      var v := YMajorFill(x, y, l, zero, k - 1).value;
      var last: Index := k - 1;
      YMajorPlacementInjective(x, y, last, last);
      var p := YMajorPlacement(x, y, last);
      assert p < |v|;
      var w := v[p := l[last]];
      assert YMajorFill(x, y, l, zero, k) == Some(w);
      forall i: Index | i < k
        ensures w[YMajorPlacement(x, y, i)] == l[i]
      {
        if i < last {
          YMajorPlacementInjective(x, y, i, last);
        }
      }
    }
  }

  /** Without wrap-around the grid cell (cx, cy) ends up holding list cell `xSize * cy + cx`. */
  lemma {:induction false} YMajorFillCells<T>(x: Index, y: Index, l: seq<T>, zero: T)
    requires x * y < U32 && |l| == x * y
    ensures YMajorFill(x, y, l, zero, |l|).Some?
    ensures forall cx: Index, cy: Index :: cx < x && cy < y ==>
      XyToIndex(YMajor, x, y, cx, cy) < |l| && XyToIndex(XMajor, x, y, cx, cy) < |l| &&
      YMajorFill(x, y, l, zero, |l|).value[XyToIndex(XMajor, x, y, cx, cy)] == l[XyToIndex(YMajor, x, y, cx, cy)]
  {
    YMajorFillPlacesList(x, y, l, zero, |l|);
    var v := YMajorFill(x, y, l, zero, |l|).value;
    forall cx: Index, cy: Index | cx < x && cy < y
      ensures XyToIndex(YMajor, x, y, cx, cy) < |l| && XyToIndex(XMajor, x, y, cx, cy) < |l|
      ensures v[XyToIndex(XMajor, x, y, cx, cy)] == l[XyToIndex(YMajor, x, y, cx, cy)]
    {
      PlacedCell(x, y, l, v, cx, cy);
    }
  }

  /** One grid cell of a vector that holds every list cell at its placement. */
  lemma {:induction false} PlacedCell<T>(x: Index, y: Index, l: seq<T>, v: seq<T>, cx: Index, cy: Index)
    requires x * y < U32 && |l| == x * y && |v| == |l| && cx < x && cy < y
    requires forall i: Index :: i < |l| ==> x > 0 && v[YMajorPlacement(x, y, i)] == l[i]
    ensures XyToIndex(YMajor, x, y, cx, cy) < |l| && XyToIndex(XMajor, x, y, cx, cy) < |l|
    ensures v[XyToIndex(XMajor, x, y, cx, cy)] == l[XyToIndex(YMajor, x, y, cx, cy)]
  {
    YMajorPlacementOfCell(x, y, cx, cy);
    XyToIndexInRange(XMajor, x, y, cx, cy);
    var i := XyToIndex(YMajor, x, y, cx, cy);
    assert v[YMajorPlacement(x, y, i)] == l[i];
  }

  /**
   * With the size wrapped, a 65536 x 65537 grid holds 65536 cells, and list
   * cell 1 goes to `at(1, 0)`, x-major index 65537, past the end: the
   * initializer throws.
   */
  lemma {:induction false} YMajorFillWrapThrows<T>(l: seq<T>, zero: T)
    requires |l| == 65536
    ensures |l| == (65536 * 65537) % U32
    ensures YMajorFill(65536, 65537, l, zero, |l|).None?
  {
    WrappedGridSize();
    assert !AllPlaced(65536, 65537, |l|, |l|) by {
      SecondListCellPlacement();
      var one: Index := 1;
      assert !(YMajorPlacement(65536, 65537, one) < |l|);
    }
    YMajorFillSucceedsIff(65536, 65537, l, zero, |l|);
  }

  /** 65536 * 65537 wraps to 65536 in 32 bits. */
  lemma {:induction false} WrappedGridSize()
    ensures (65536 * 65537) % U32 == 65536
  {
  }

  /** In a grid 65536 wide, list cell 1 goes to `at(1, 0)`, x-major index 65537 when the height is 65537. */
  lemma {:induction false} SecondListCellPlacement()
    ensures YMajorPlacement(65536, 65537, 1) == 65537
  {
    YMajorPlacementIsIndex(65536, 65537, 1);
  }

  /** `n` copies of `v`: a `std::vector` constructed with `n` elements, or `n` and `v`. */
  function Copies<T>(n: nat, v: T): (r: seq<T>)
    ensures |r| == n && forall i :: 0 <= i < n ==> r[i] == v
  {
    seq(n, _ => v)
  }

  /** The new contents of a `std::vector` after `resize(n, v)`. */
  function Resized<T>(s: seq<T>, n: nat, v: T): (r: seq<T>)
    ensures |r| == n
    ensures forall i :: 0 <= i < n && i < |s| ==> r[i] == s[i]
    ensures forall i :: |s| <= i < n ==> r[i] == v
  {
    if n <= |s| then s[..n] else s + seq(n - |s|, _ => v)
  }

  /** A `Vector2D<T>`: flat storage `vec`, the two extents and the index layout. */
  class Vector2D<T(0)> {
    var vec: seq<T>
    var xSize: Index
    var ySize: Index
    var layout: Layout

    /** The default constructor: empty, x-major. */
    constructor ()
      ensures vec == [] && xSize == 0 && ySize == 0 && layout == XMajor
    {
      vec, xSize, ySize, layout := [], 0, 0, XMajor;
    }

    /**
     * `Vector2D(xSize, ySize)`: `xSize * ySize` (a 32-bit product) copies of
     * `zero`, the value-initialised `T()`.
     */
    constructor Sized(x: Index, y: Index, zero: T)
      ensures vec == Copies((x * y) % U32, zero)
      ensures xSize == x && ySize == y && layout == XMajor
    {
      vec := Copies((x * y) % U32, zero);
      xSize, ySize, layout := x, y, XMajor;
    }

    /** Without wrap-around, `at(cx, cy)` of the filled grid is list cell `xSize * cy + cx`. */
    static lemma {:induction false} YMajorGridCells(g: Vector2D<T>, l: seq<T>, zero: T)
      requires g.xSize * g.ySize < U32 && |l| == (g.xSize * g.ySize) % U32 && g.layout == XMajor
      requires YMajorFill(g.xSize, g.ySize, l, zero, |l|) == Some(g.vec)
      ensures forall cx: Index, cy: Index :: cx < g.xSize && cy < g.ySize ==>
        XyToIndex(YMajor, g.xSize, g.ySize, cx, cy) < |l| &&
        g.At(cx, cy) == Some(l[XyToIndex(YMajor, g.xSize, g.ySize, cx, cy)])
    {
      var x, y := g.xSize, g.ySize;
      BelowRangeUnwrapped(x, y);
      YMajorFillCells(x, y, l, zero);
      forall cx: Index, cy: Index | cx < x && cy < y
        ensures XyToIndex(YMajor, x, y, cx, cy) < |l| && g.At(cx, cy) == Some(l[XyToIndex(YMajor, x, y, cx, cy)])
      {
        g.AtStored(cx, cy, l[XyToIndex(YMajor, x, y, cx, cy)]);
      }
    }

    /** `at(x, y)` of an x-major grid reads the stored cell at the x-major index. */
    lemma {:induction false} AtStored(cx: Index, cy: Index, e: T)
      requires layout == XMajor
      requires XyToIndex(XMajor, xSize, ySize, cx, cy) < |vec| && vec[XyToIndex(XMajor, xSize, ySize, cx, cy)] == e
      ensures At(cx, cy) == Some(e)
    {
    }

    /** `size()`. */
    function Size(): nat
      reads this
    {
      |vec|
    }

    /** `xyToIndex` with this grid's layout and extents. */
    function IndexOf(x: Index, y: Index): Index
      reads this
    {
      XyToIndex(layout, xSize, ySize, x, y)
    }

    /** `atIdx(idx)`: `std::vector::at`, which throws for an index past the end (here `None`). */
    function AtIdx(idx: Index): (r: Option<T>)
      reads this
      ensures r.Some? <==> idx < |vec|
      ensures r.Some? ==> r.value == vec[idx]
    {
      if idx < |vec| then Some(vec[idx]) else None
    }

    /** `at(x, y)` and `at(XY)`: only the flat index is range-checked, not `x` and `y` separately. */
    function At(x: Index, y: Index): (r: Option<T>)
      reads this
      ensures r == AtIdx(IndexOf(x, y))
      ensures x < xSize && y < ySize && |vec| == xSize * ySize ==> r.Some?
    {
      if xSize * ySize <= U32 && x < xSize && y < ySize then
        XyToIndexInRange(layout, xSize, ySize, x, y);
        AtIdx(IndexOf(x, y))
      else
        AtIdx(IndexOf(x, y))
    }

    /** Assignment through `at(x, y)`; `false` where `at` would throw. */
    method SetAt(x: Index, y: Index, v: T) returns (ok: bool)
      modifies this
      ensures xSize == old(xSize) && ySize == old(ySize) && layout == old(layout)
      ensures ok <==> IndexOf(x, y) < |old(vec)|
      ensures vec == if ok then old(vec)[IndexOf(x, y) := v] else old(vec)
    {
      var idx := IndexOf(x, y);
      ok := idx < |vec|;
      if ok {
        vec := vec[idx := v];
      }
    }

    /** `clear()`: no elements and both extents 0; the layout is kept. */
    method Clear()
      modifies this
      ensures vec == [] && xSize == 0 && ySize == 0 && layout == old(layout)
    {
      vec := [];
      xSize, ySize := 0, 0;
    }

    /**
     * `resize(xSize, ySize, v)`: keeps the leading elements and fills the rest
     * with `v`; `resize(xSize, ySize)` is this with `v` the value-initialised `T()`.
     */
    method Resize(x: Index, y: Index, v: T)
      modifies this
      ensures vec == Resized(old(vec), (x * y) % U32, v)
      ensures xSize == x && ySize == y && layout == old(layout)
      ensures x * y < U32 ==> Size() == xSize * ySize
    {
      vec := Resized(vec, (x * y) % U32, v);
      xSize, ySize := x, y;
    }

    /** `setType(t)`: only the layout changes. */
    method SetType(t: Layout)
      modifies this
      ensures layout == t && vec == old(vec) && xSize == old(xSize) && ySize == old(ySize)
    {
      layout := t;
    }

    /**
     * The y-major branch of the initializer-list constructor
     * `Vector2D(xSize, ySize, YMajor, l)`: the storage holds `xSize * ySize`
     * (a 32-bit product) cells, which the constructor's `Assert` requires the
     * list to fill, and list cell `idx` is written to `at(idx % xSize, idx / xSize)`.
     * The layout is never set, so `at` uses the x-major index.  Where `at`
     * throws, the constructor throws and no grid exists (`None`).
     */
    static method FromListYMajor(x: Index, y: Index, l: seq<T>, zero: T) returns (g: Option<Vector2D<T>>)
      requires |l| == (x * y) % U32
      ensures g.None? <==> YMajorFill(x, y, l, zero, |l|).None?
      ensures g.Some? ==> fresh(g.value) && g.value.vec == YMajorFill(x, y, l, zero, |l|).value
      ensures g.Some? ==> g.value.xSize == x && g.value.ySize == y && g.value.layout == XMajor
      ensures x * y < U32 ==> g.Some?
      ensures x * y < U32 && g.Some? ==> forall cx: Index, cy: Index :: cx < x && cy < y ==>
        XyToIndex(YMajor, x, y, cx, cy) < |l| && g.value.At(cx, cy) == Some(l[XyToIndex(YMajor, x, y, cx, cy)])
    {
      var grid := new Vector2D.Sized(x, y, zero);
      var idx: Index := 0;
      while idx < |grid.vec|
        invariant idx <= |l| == |grid.vec|
        invariant grid.xSize == x && grid.ySize == y && grid.layout == XMajor
        invariant YMajorFill(x, y, l, zero, idx) == Some(grid.vec)
      {
        YMajorFillStep(x, y, l, zero, idx, grid.vec);
        var cx := IdxToX(YMajor, x, y, idx);
        var cy := IdxToY(YMajor, x, y, idx);
        var p := grid.IndexOf(cx, cy);
        YMajorPlacementIsIndex(x, y, idx);
        if p >= |grid.vec| {
          return None;
        }
        grid.vec := grid.vec[p := l[idx]];
        idx := idx + 1;
      }
      if x * y < U32 {
        YMajorGridCells(grid, l, zero);
      }
      return Some(grid);
    }
  }
}
