/**
 * Integer rectangles (`Box<LocType>` in util/Box.h) and the `klib::box*`
 * relations between two rectangles that spacing and placement code uses.
 *
 * A rectangle is stored as its lower-left and upper-right corners.  Nothing
 * forces `ll <= ur`; `Valid()` says when that holds, and the relations are
 * total on every pair of boxes, valid or not.  Coordinates are unbounded
 * integers: the 32-bit range of `LocType` is not modelled.
 */
module Geometry {

  /** A point `XY<LocType>`. */
  datatype XY = XY(x: int, y: int)

  /** `Box<LocType>`: lower-left corner `ll`, upper-right corner `ur`. */
  datatype Box = Box(ll: XY, ur: XY) {

    function XLo(): int { ll.x }
    function YLo(): int { ll.y }
    function XHi(): int { ur.x }
    function YHi(): int { ur.y }
    function XLen(): int { ur.x - ll.x }
    function YLen(): int { ur.y - ll.y }
    function Area(): int { XLen() * YLen() }
    function Hpwl(): int { XHi() - XLo() + YHi() - YLo() }

    /** The centre, each coordinate halved with C++ integer division. */
    function Center(): XY
    {
      XY(HalfTowardZero(ll.x + ur.x), HalfTowardZero(ll.y + ur.y))
    }

    /** `valid()`: the corners are ordered on both axes. */
    predicate Valid() { ll.x <= ur.x && ll.y <= ur.y }

    /** Both extents are positive: the box has an interior. */
    predicate HasInterior() { ll.x < ur.x && ll.y < ur.y }

    /** `contain(x, y)` and `contain(XY)`: inclusive on all four edges. */
    predicate Contain(p: XY)
    {
      ll.x <= p.x <= ur.x && ll.y <= p.y <= ur.y
    }

    /** `contain(Box)`: compares the four edges, valid or not. */
    predicate ContainBox(other: Box)
    {
      XLo() <= other.XLo() && YLo() <= other.YLo() && XHi() >= other.XHi() && YHi() >= other.YHi()
    }

    /** `cover(Box)`: this box contains both corners of the other. */
    predicate Cover(other: Box)
    {
      Contain(other.ll) && Contain(other.ur)
    }

    /** `overlap(Box)`: strict on every edge; touching boxes do not overlap. */
    predicate Overlap(other: Box)
    {
      if ll.x >= other.XHi() || other.XLo() >= ur.x then false
      else if ll.y >= other.YHi() || other.YLo() >= ur.y then false
      else true
    }

    /** `intersect(Box)`: non-strict; touching boxes intersect. */
    predicate Intersect(other: Box)
    {
      if ll.x > other.XHi() || other.XLo() > ur.x then false
      else if ll.y > other.YHi() || other.YLo() > ur.y then false
      else true
    }

    /** `offsetBox(origin)`: the box moved by `origin`. */
    function OffsetBox(origin: XY): (r: Box)
      ensures r.XLen() == XLen() && r.YLen() == YLen() && r.Area() == Area()
      ensures r.ll == XY(ll.x + origin.x, ll.y + origin.y)
    {
      MakeBox(XLo() + origin.x, YLo() + origin.y, XHi() + origin.x, YHi() + origin.y)
    }
  }

  /** `Box(xLo, yLo, xHi, yHi)`. */
  function MakeBox(xLo: int, yLo: int, xHi: int, yHi: int): Box
  {
    Box(XY(xLo, yLo), XY(xHi, yHi))
  }

  /** C++ `v / 2` on a signed integer: the quotient is truncated toward zero. */
  function HalfTowardZero(v: int): (r: int)
    ensures 2 * r <= v + 1 && v - 1 <= 2 * r
    ensures v >= 0 ==> 2 * r <= v
    ensures v < 0 ==> v <= 2 * r
  {
    if v >= 0 then v / 2 else -((-v) / 2)
  }

  function Min(a: int, b: int): int { if a <= b then a else b }
  function Max(a: int, b: int): int { if a >= b then a else b }

  /** The box after `join(pt)`: each edge moved out just far enough to reach `pt`. */
  function JoinPoint(b: Box, pt: XY): (r: Box)
    ensures r.Contain(pt) && r.ContainBox(b)
    ensures forall c: Box :: c.ContainBox(b) && c.Contain(pt) ==> c.ContainBox(r)
  {
    MakeBox(Min(pt.x, b.XLo()), Min(pt.y, b.YLo()), Max(pt.x, b.XHi()), Max(pt.y, b.YHi()))
  }

  /** The box after `a.unionBox(b)`: the smallest box whose edges enclose both. */
  function UnionOf(a: Box, b: Box): (r: Box)
    ensures r.ContainBox(a) && r.ContainBox(b)
    ensures forall c: Box :: c.ContainBox(a) && c.ContainBox(b) ==> c.ContainBox(r)
  {
    MakeBox(Min(a.XLo(), b.XLo()), Min(a.YLo(), b.YLo()), Max(a.XHi(), b.XHi()), Max(a.YHi(), b.YHi()))
  }

  /** The box after `enlargeBy(d)`: every edge pushed out by `d`. */
  function Enlarged(b: Box, d: int): (r: Box)
    ensures r.XLen() == b.XLen() + 2 * d && r.YLen() == b.YLen() + 2 * d
    ensures d >= 0 ==> r.ContainBox(b)
    ensures r.Center() == b.Center()
  {
    MakeBox(b.XLo() - d, b.YLo() - d, b.XHi() + d, b.YHi() + d)
  }

  // ---------------------------------------------------------------------------
  // Properties of a single box and of overlap / intersect
  // ---------------------------------------------------------------------------

  /** A valid box contains its own corners and its centre, and covers itself. */
  lemma {:induction false} ValidBoxContainsCorners(b: Box)
    requires b.Valid()
    ensures b.Contain(b.ll) && b.Contain(b.ur) && b.Cover(b)
    ensures b.Contain(b.Center())
  {
  }

  /** `contain` on both corners is `cover`, and for a valid box it agrees with the edge test. */
  lemma {:induction false} CoverIffContainBox(a: Box, b: Box)
    requires a.Valid() && b.Valid()
    ensures a.Cover(b) <==> a.ContainBox(b)
  {
  }

  /** Overlap and intersection do not depend on which box is the receiver. */
  lemma {:induction false} OverlapIntersectSymmetric(a: Box, b: Box)
    ensures a.Overlap(b) <==> b.Overlap(a)
    ensures a.Intersect(b) <==> b.Intersect(a)
  {
  }

  /** Overlap is the strict version of intersect: the first implies the second. */
  lemma {:induction false} OverlapImpliesIntersect(a: Box, b: Box)
    ensures a.Overlap(b) ==> a.Intersect(b)
  {
  }

  /** A box overlaps itself exactly when it has positive width and height. */
  lemma {:induction false} OverlapSelfIffInterior(b: Box)
    ensures b.Overlap(b) <==> b.HasInterior()
  {
  }

  /** Two unit squares sharing an edge intersect but do not overlap. */
  lemma {:induction false} EdgeTouchingIntersectsWithoutOverlap()
    ensures MakeBox(0, 0, 2, 2).Intersect(MakeBox(2, 0, 4, 2))
    ensures !MakeBox(0, 0, 2, 2).Overlap(MakeBox(2, 0, 4, 2))
  {
  }

  /** Overlap is the existence of a shared interior point (with real coordinates). */
  lemma {:induction false} OverlapIffSharedInteriorPoint(a: Box, b: Box)
    requires a.HasInterior() && b.HasInterior()
    ensures a.Overlap(b) <==>
      exists px: real, py: real :: InteriorReal(a, px, py) && InteriorReal(b, px, py)
  {
    if a.Overlap(b) {
      var px := (Max(a.XLo(), b.XLo()) + Min(a.XHi(), b.XHi())) as real / 2.0;
      var py := (Max(a.YLo(), b.YLo()) + Min(a.YHi(), b.YHi())) as real / 2.0;
      assert InteriorReal(a, px, py) && InteriorReal(b, px, py);
    }
  }

  ghost predicate InteriorReal(b: Box, px: real, py: real)
  {
    b.XLo() as real < px < b.XHi() as real && b.YLo() as real < py < b.YHi() as real
  }

  ghost predicate InBoxReal(b: Box, px: real, py: real)
  {
    b.XLo() as real <= px <= b.XHi() as real && b.YLo() as real <= py <= b.YHi() as real
  }

  // ---------------------------------------------------------------------------
  // Union, join, offset, enlarge
  // ---------------------------------------------------------------------------

  /** The union is the same whichever operand is the receiver. */
  lemma {:induction false} UnionCommutative(a: Box, b: Box)
    ensures UnionOf(a, b) == UnionOf(b, a)
  {
  }

  /** A second union with the same box changes nothing. */
  lemma {:induction false} UnionIdempotent(a: Box, b: Box)
    ensures UnionOf(UnionOf(a, b), b) == UnionOf(a, b)
    ensures UnionOf(a, a) == a
  {
  }

  /** For valid operands the union covers both of them and is itself valid. */
  lemma {:induction false} UnionCoversOperands(a: Box, b: Box)
    requires a.Valid() && b.Valid()
    ensures UnionOf(a, b).Valid()
    ensures UnionOf(a, b).Cover(a) && UnionOf(a, b).Cover(b)
  {
  }

  /** Joining a point a valid box already contains changes nothing. */
  lemma {:induction false} JoinContainedPointIsIdentity(b: Box, pt: XY)
    requires b.Valid() && b.Contain(pt)
    ensures JoinPoint(b, pt) == b
  {
  }

  /** Offsetting by `o` and then by `-o` gives back the box. */
  lemma {:induction false} OffsetRoundTrip(b: Box, o: XY)
    ensures b.OffsetBox(o).OffsetBox(XY(-o.x, -o.y)) == b
  {
  }

  // ---------------------------------------------------------------------------
  // klib: relations between two boxes
  // ---------------------------------------------------------------------------

  /** No overlap along x: one box lies wholly left of the other (edges may touch). */
  predicate XSeparated(lhs: Box, rhs: Box)
  {
    lhs.XLo() >= rhs.XHi() || rhs.XLo() >= lhs.XHi()
  }

  predicate YSeparated(lhs: Box, rhs: Box)
  {
    lhs.YLo() >= rhs.YHi() || rhs.YLo() >= lhs.YHi()
  }

  /** The open y-ranges of the two boxes overlap. */
  predicate YRun(lhs: Box, rhs: Box)
  {
    lhs.YLo() < rhs.YHi() && rhs.YLo() < lhs.YHi()
  }

  predicate XRun(lhs: Box, rhs: Box)
  {
    lhs.XLo() < rhs.XHi() && rhs.XLo() < lhs.XHi()
  }

  /** `boxAreParallelOverlap`: the boxes face each other across a gap on one axis. */
  predicate BoxAreParallelOverlap(lhs: Box, rhs: Box)
  {
    if XSeparated(lhs, rhs) && YRun(lhs, rhs) then true
    else if YSeparated(lhs, rhs) && XRun(lhs, rhs) then true
    else false
  }

  /** `boxParallelRun`: the length over which the two boxes face each other. */
  function BoxParallelRun(lhs: Box, rhs: Box): int
  {
    if XSeparated(lhs, rhs) && YRun(lhs, rhs) then
      Min(lhs.YHi(), rhs.YHi()) - Max(lhs.YLo(), rhs.YLo())
    else if YSeparated(lhs, rhs) && XRun(lhs, rhs) then
      Min(lhs.XHi(), rhs.XHi()) - Max(lhs.XLo(), rhs.XLo())
    else 0
  }

  /**
   * The result of `boxSpacing`.  On the diagonal branch the source returns
   * `hypot(xDif, yDif)` cast to an integer; the model keeps the two operands
   * and leaves the floating-point distance uninterpreted.
   */
  datatype Spacing = Exact(gap: int) | Diagonal(xDif: int, yDif: int)

  /** `boxSpacing`. */
  function BoxSpacing(lhs: Box, rhs: Box): Spacing
  {
    if XSeparated(lhs, rhs) then
      if YRun(lhs, rhs) then Exact(Max(lhs.XLo(), rhs.XLo()) - Min(lhs.XHi(), rhs.XHi()))
      else Diagonal(Min(lhs.XHi(), rhs.XHi()) - Max(lhs.XLo(), rhs.XLo()),
                    Min(lhs.YHi(), rhs.YHi()) - Max(lhs.YLo(), rhs.YLo()))
    else if YSeparated(lhs, rhs) && XRun(lhs, rhs) then
      Exact(Max(lhs.YLo(), rhs.YLo()) - Min(lhs.YHi(), rhs.YHi()))
    else Exact(0)
  }

  /** `boxWidth`: the widths across the facing direction, or (0, 0). */
  function BoxWidth(lhs: Box, rhs: Box): (int, int)
  {
    if XSeparated(lhs, rhs) && YRun(lhs, rhs) then (lhs.XLen(), rhs.XLen())
    else if YSeparated(lhs, rhs) && XRun(lhs, rhs) then (lhs.YLen(), rhs.YLen())
    else (0, 0)
  }

  /**
   * For valid boxes the parallel run is never negative, it is positive only when
   * the boxes face each other, and it is positive whenever they face each other
   * and both have an interior.
   */
  lemma {:induction false} ParallelRunMatchesParallelOverlap(lhs: Box, rhs: Box)
    requires lhs.Valid() && rhs.Valid()
    ensures BoxParallelRun(lhs, rhs) >= 0
    ensures BoxParallelRun(lhs, rhs) > 0 ==> BoxAreParallelOverlap(lhs, rhs)
    ensures lhs.HasInterior() && rhs.HasInterior() && BoxAreParallelOverlap(lhs, rhs) ==>
      BoxParallelRun(lhs, rhs) > 0
    ensures !BoxAreParallelOverlap(lhs, rhs) ==> BoxParallelRun(lhs, rhs) == 0
  {
  }

  /** A box of zero height facing another box: parallel-overlapping with a run of 0. */
  lemma {:induction false} FlatBoxFacesWithZeroRun()
    ensures BoxAreParallelOverlap(MakeBox(0, 0, 2, 0), MakeBox(3, -1, 5, 1))
    ensures BoxParallelRun(MakeBox(0, 0, 2, 0), MakeBox(3, -1, 5, 1)) == 0
  {
  }

  /** The run is the length of the shared open interval on the facing axis. */
  lemma {:induction false} ParallelRunIsSharedLength(lhs: Box, rhs: Box, t: int)
    requires lhs.Valid() && rhs.Valid() && lhs.HasInterior() && rhs.HasInterior()
    requires XSeparated(lhs, rhs) && YRun(lhs, rhs)
    ensures BoxParallelRun(lhs, rhs) == BoxParallelRun(rhs, lhs)
    ensures (lhs.YLo() <= t < lhs.YHi() && rhs.YLo() <= t < rhs.YHi()) <==>
      Max(lhs.YLo(), rhs.YLo()) <= t < Max(lhs.YLo(), rhs.YLo()) + BoxParallelRun(lhs, rhs)
  {
  }

  /** `boxWidth` is (0, 0) unless the boxes face each other, and the x-widths when they face across x. */
  lemma {:induction false} BoxWidthCases(lhs: Box, rhs: Box)
    ensures !BoxAreParallelOverlap(lhs, rhs) ==> BoxWidth(lhs, rhs) == (0, 0)
    ensures XSeparated(lhs, rhs) && YRun(lhs, rhs) ==> BoxWidth(lhs, rhs) == (lhs.XLen(), rhs.XLen())
    ensures !XSeparated(lhs, rhs) && YSeparated(lhs, rhs) && XRun(lhs, rhs) ==>
      BoxWidth(lhs, rhs) == (lhs.YLen(), rhs.YLen())
  {
  }

  /** Diagonally placed squares have no facing run, so their widths are (0, 0). */
  lemma {:induction false} DiagonalBoxesHaveZeroWidth()
    ensures BoxWidth(MakeBox(0, 0, 1, 1), MakeBox(2, 2, 3, 3)) == (0, 0)
    ensures BoxSpacing(MakeBox(0, 0, 1, 1), MakeBox(2, 2, 3, 3)) == Diagonal(-1, -1)
  {
  }

  /** Overlapping boxes are 0 apart; boxes facing across x are the gap between facing edges apart. */
  lemma {:induction false} SpacingOfOverlapAndFacingBoxes(lhs: Box, rhs: Box)
    requires lhs.Valid() && rhs.Valid()
    ensures lhs.Overlap(rhs) ==> BoxSpacing(lhs, rhs) == Exact(0)
    ensures XSeparated(lhs, rhs) && YRun(lhs, rhs) ==>
      BoxSpacing(lhs, rhs) == Exact(if lhs.XLo() >= rhs.XHi() then lhs.XLo() - rhs.XHi() else rhs.XLo() - lhs.XHi())
    ensures !XSeparated(lhs, rhs) && YSeparated(lhs, rhs) ==>
      BoxSpacing(lhs, rhs) == Exact(if lhs.YLo() >= rhs.YHi() then lhs.YLo() - rhs.YHi() else rhs.YLo() - lhs.YHi())
    ensures BoxSpacing(lhs, rhs).Exact? ==> BoxSpacing(lhs, rhs).gap >= 0
  {
  }

  /** Touching boxes are 0 apart: an exact 0, or a diagonal distance between coinciding corners. */
  lemma {:induction false} SpacingOfIntersectingBoxes(lhs: Box, rhs: Box)
    requires lhs.Valid() && rhs.Valid() && lhs.Intersect(rhs)
    ensures BoxSpacing(lhs, rhs) == Exact(0) || BoxSpacing(lhs, rhs) == Diagonal(0, 0)
  {
  }

  // ---------------------------------------------------------------------------
  // boxUnionRectangle
  // ---------------------------------------------------------------------------

  /** The union of the two boxes, as a point set, fills their bounding box. */
  ghost predicate UnionIsRectangle(a: Box, b: Box)
  {
    forall px: real, py: real :: InBoxReal(UnionOf(a, b), px, py) ==> InBoxReal(a, px, py) || InBoxReal(b, px, py)
  }

  /** `boxUnionRectangle` as written: the span test accepts only separated or abutting boxes. */
  predicate BoxUnionRectangle(lhs: Box, rhs: Box)
  {
    if lhs.Cover(rhs) || rhs.Cover(lhs) then true
    else if lhs.XLo() == rhs.XLo() && lhs.XHi() == rhs.XHi() && YSeparated(lhs, rhs) then true
    else if lhs.YLo() == rhs.YLo() && lhs.YHi() == rhs.YHi() && XSeparated(lhs, rhs) then true
    else false
  }

  /** The intended test: same span on one axis, and touching or overlapping on the other. */
  predicate BoxUnionRectangleFixed(lhs: Box, rhs: Box)
  {
    if lhs.Cover(rhs) || rhs.Cover(lhs) then true
    else if lhs.XLo() == rhs.XLo() && lhs.XHi() == rhs.XHi() && lhs.YLo() <= rhs.YHi() && rhs.YLo() <= lhs.YHi() then true
    else if lhs.YLo() == rhs.YLo() && lhs.YHi() == rhs.YHi() && lhs.XLo() <= rhs.XHi() && rhs.XLo() <= lhs.XHi() then true
    else false
  }

  /** As written, two squares one above the other with a gap between them are accepted ... */
  lemma {:induction false} UnionRectangleAcceptsGap()
    ensures BoxUnionRectangle(MakeBox(0, 0, 1, 1), MakeBox(0, 2, 1, 3))
    ensures !UnionIsRectangle(MakeBox(0, 0, 1, 1), MakeBox(0, 2, 1, 3))
  {
    var a, b := MakeBox(0, 0, 1, 1), MakeBox(0, 2, 1, 3);
    assert InBoxReal(UnionOf(a, b), 0.5, 1.5) && !InBoxReal(a, 0.5, 1.5) && !InBoxReal(b, 0.5, 1.5);
  }

  /** ... and two overlapping boxes of the same width, whose union is a rectangle, are rejected. */
  lemma {:induction false} UnionRectangleRejectsOverlap()
    ensures !BoxUnionRectangle(MakeBox(0, 0, 1, 2), MakeBox(0, 1, 1, 3))
    ensures UnionIsRectangle(MakeBox(0, 0, 1, 2), MakeBox(0, 1, 1, 3))
  {
  }

  /** For valid boxes the corrected test holds exactly when the union is a rectangle. */
  lemma {:induction false} UnionRectangleFixedCorrect(a: Box, b: Box)
    requires a.Valid() && b.Valid()
    ensures BoxUnionRectangleFixed(a, b) <==> UnionIsRectangle(a, b)
  {
    if BoxUnionRectangleFixed(a, b) {
      FixedImpliesRectangle(a, b);
    } else if UnionIsRectangle(a, b) {
      RectangleImpliesFixed(a, b);
    }
  }

  lemma {:induction false} FixedImpliesRectangle(a: Box, b: Box)
    requires a.Valid() && b.Valid() && BoxUnionRectangleFixed(a, b)
    ensures UnionIsRectangle(a, b)
  {
  }

  lemma {:induction false} RectangleImpliesFixed(a: Box, b: Box)
    requires a.Valid() && b.Valid() && UnionIsRectangle(a, b)
    ensures BoxUnionRectangleFixed(a, b)
  {
    var u := UnionOf(a, b);
    var x0, x1, y0, y1 := u.XLo() as real, u.XHi() as real, u.YLo() as real, u.YHi() as real;
    assert InBoxReal(u, x0, y0) && InBoxReal(u, x0, y1) && InBoxReal(u, x1, y0) && InBoxReal(u, x1, y1);
    GapLeavesHole(a, b);
  }

  /** A gap between two boxes of the same span leaves its midpoint outside both. */
  lemma {:induction false} GapLeavesHole(a: Box, b: Box)
    requires a.Valid() && b.Valid()
    ensures a.XLo() == b.XLo() && a.XHi() == b.XHi() && Min(a.YHi(), b.YHi()) < Max(a.YLo(), b.YLo()) ==>
      !UnionIsRectangle(a, b)
    ensures a.YLo() == b.YLo() && a.YHi() == b.YHi() && Min(a.XHi(), b.XHi()) < Max(a.XLo(), b.XLo()) ==>
      !UnionIsRectangle(a, b)
  {
    var u := UnionOf(a, b);
    var yGapLo, yGapHi := Min(a.YHi(), b.YHi()), Max(a.YLo(), b.YLo());
    var xGapLo, xGapHi := Min(a.XHi(), b.XHi()), Max(a.XLo(), b.XLo());
    if a.XLo() == b.XLo() && a.XHi() == b.XHi() && yGapLo < yGapHi {
      var py := (yGapLo + yGapHi) as real / 2.0;
      assert InBoxReal(u, a.XLo() as real, py) && !InBoxReal(a, a.XLo() as real, py) && !InBoxReal(b, a.XLo() as real, py);
    }
    if a.YLo() == b.YLo() && a.YHi() == b.YHi() && xGapLo < xGapHi {
      var px := (xGapLo + xGapHi) as real / 2.0;
      assert InBoxReal(u, px, a.YLo() as real) && !InBoxReal(a, px, a.YLo() as real) && !InBoxReal(b, px, a.YLo() as real);
    }
  }

  // ---------------------------------------------------------------------------
  // A box whose corners are updated in place
  // ---------------------------------------------------------------------------

  /** A `Box<LocType>` object: the setters, `join`, `unionBox`, `offsetBy` and `enlargeBy` update its corners. */
  class BoxVar {
    var ll: XY
    var ur: XY

    /** The rectangle the object currently holds. */
    function Value(): Box
      reads this
    {
      Box(ll, ur)
    }

    constructor (b: Box)
      ensures Value() == b
    {
      ll, ur := b.ll, b.ur;
    }

    /** `set(xLo, yLo, xHi, yHi)`. */
    method Set(xLo: int, yLo: int, xHi: int, yHi: int)
      modifies this
      ensures Value() == MakeBox(xLo, yLo, xHi, yHi)
    {
      ll := XY(xLo, yLo);
      ur := XY(xHi, yHi);
    }

    method SetXLo(v: int)
      modifies this
      ensures Value() == MakeBox(v, old(ll.y), old(ur.x), old(ur.y))
    {
      ll := ll.(x := v);
    }

    method SetYLo(v: int)
      modifies this
      ensures Value() == MakeBox(old(ll.x), v, old(ur.x), old(ur.y))
    {
      ll := ll.(y := v);
    }

    method SetXHi(v: int)
      modifies this
      ensures Value() == MakeBox(old(ll.x), old(ll.y), v, old(ur.y))
    {
      ur := ur.(x := v);
    }

    method SetYHi(v: int)
      modifies this
      ensures Value() == MakeBox(old(ll.x), old(ll.y), old(ur.x), v)
    {
      ur := ur.(y := v);
    }

    /** `join(pt)`: grow just enough to contain `pt`. */
    method Join(pt: XY)
      modifies this
      ensures Value() == JoinPoint(old(Value()), pt)
      ensures Value().Contain(pt) && Value().ContainBox(old(Value()))
    {
      ll := ll.(x := Min(pt.x, ll.x));
      ll := ll.(y := Min(pt.y, ll.y));
      ur := ur.(x := Max(pt.x, ur.x));
      ur := ur.(y := Max(pt.y, ur.y));
    }

    /** `unionBox(other)`: become the bounding box of the old value and `other`. */
    method UnionBox(other: Box)
      modifies this
      ensures Value() == UnionOf(old(Value()), other)
      ensures Value().ContainBox(old(Value())) && Value().ContainBox(other)
    {
      SetXLo(Min(ll.x, other.XLo()));
      SetYLo(Min(ll.y, other.YLo()));
      SetXHi(Max(ur.x, other.XHi()));
      SetYHi(Max(ur.y, other.YHi()));
    }

    /** `offsetBy(origin)`: the same box as `offsetBox(origin)` would return. */
    method OffsetBy(origin: XY)
      modifies this
      ensures Value() == old(Value()).OffsetBox(origin)
      ensures Value().XLen() == old(Value().XLen()) && Value().YLen() == old(Value().YLen())
    {
      SetXLo(ll.x + origin.x);
      SetYLo(ll.y + origin.y);
      SetXHi(ur.x + origin.x);
      SetYHi(ur.y + origin.y);
    }

    /** `enlargeBy(dis)`: every edge pushed outward by `dis`. */
    method EnlargeBy(dis: int)
      modifies this
      ensures Value() == Enlarged(old(Value()), dis)
      ensures Value().XLen() == old(Value().XLen()) + 2 * dis && Value().YLen() == old(Value().YLen()) + 2 * dis
    {
      SetXLo(ll.x - dis);
      SetYLo(ll.y - dis);
      SetXHi(ur.x + dis);
      SetYHi(ur.y + dis);
    }
  }
}
