# MAGICAL flow core, modelled in Dafny

MAGICAL (Machine Generated Analog IC Layout) turns an analog netlist into a
GDSII layout. This project models the parts of its flow that compute:

- **Hierarchy root.** `DesignDB::findRootCkt` searches the circuit hierarchy
  depth first (`hierarchy.dfy`).
- **Layout writer.** The hierarchical GDSII writer `GdsWriter` turns a circuit
  into a GDSII cell (`layoutwriter.dfy`). `topCell` picks the top cell of a
  GDSII database (`gdsmodel.dfy`).
- **Geometry and containers.**
  - Integer rectangles `Box<LocType>` and the `klib::box*` relations between
    two boxes (`geometry.dfy`).
  - The flat two-dimensional array `Vector2D<T>` (`flatgrid.dfy`).
- **Utilities.**
  - `kLibBase.h` and `bLibBase.h`: swap-with-last erase, ordering, absolute
    differences, the index overflow test, vector moves, Manhattan distances,
    whitespace trims, and path and suffix splitting (`klib.dfy`,
    `blib.dfy`).
  - The rank table of `BasicTypeSelection.h` (`typeselection.dfy`).
- **Python scripts.**
  - `Constraint.py`: reading `.sym` files, the primary-cell test, and the
    records of `.initObj` files (`constraint.dfy`).
  - `MagicalDB.py`: netlist choice, power and digital net marking, and
    implementation-type names (`magicaldb.dfy`).
  - `Params.py`: flow parameters and their JSON form (`flowparams.dfy`).

Where the source mutates state the model is imperative. Examples:

- `BoxVar`, `Vector2D`, `GdsWriter`, `DesignDB`, `MagicalDB` and `Params` are
  classes whose methods update their fields.
- The loops of `findRootCkt`, `topCell`, `addCktGraph`, `parseSym`,
  `writeInitObj` and the net markings are `while`/`for` loops with invariants.

Each such method is proved against a specification function or predicate.
Lemmas state the properties of that specification.

`bLibBase.h` repeats `kLibBase.h` word for word for `ltrim`, `rtrim`, `trim`,
`parsePath2Name`, `parseSuffix` and `trimSuffix` (bLibBase.h:30-72). Those
operations are modelled once, by the KLib members below.

## Model

| member | source | states |
|---|---|---|
| Geometry.Box.OffsetBox | flow/cpp/magical_flow/src/util/Box.h:79 | the moved box keeps its width, height and area, and its lower-left corner is shifted by the origin |
| Geometry.HalfTowardZero | flow/cpp/magical_flow/src/util/Box.h:29 | C++ signed division by two: the result is within one half of v/2 and rounds toward zero for both signs |
| Geometry.Box.Center | flow/cpp/magical_flow/src/util/Box.h:29 | no contract of its own: both coordinate sums halved toward zero with HalfTowardZero; ValidBoxContainsCorners proves a valid box contains its centre |
| Geometry.Box.Valid | flow/cpp/magical_flow/src/util/Box.h:30 | no contract of its own: the corners are ordered on both axes |
| Geometry.Box.Area | flow/cpp/magical_flow/src/util/Box.h:31 | no contract of its own: the product of the two extents; OffsetBox proves that moving a box keeps it |
| Geometry.Box.Contain | flow/cpp/magical_flow/src/util/Box.h:55-60 | no contract of its own: the point lies inside or on the edges; ValidBoxContainsCorners and JoinPoint state what follows |
| Geometry.Box.ContainBox | flow/cpp/magical_flow/src/util/Box.h:63 | no contract of its own: the edge-wise comparison; CoverIffContainBox relates it to cover |
| Geometry.Box.Cover | flow/cpp/magical_flow/src/util/Box.h:73 | no contract of its own: both corners of the other box are contained |
| Geometry.Box.Overlap | flow/cpp/magical_flow/src/util/Box.h:101-112 | no contract of its own: strict comparison on every edge; OverlapIffSharedInteriorPoint characterises it |
| Geometry.Box.Intersect | flow/cpp/magical_flow/src/util/Box.h:115-126 | no contract of its own: non-strict comparison on every edge; OverlapImpliesIntersect and EdgeTouchingIntersectsWithoutOverlap compare it with overlap |
| Geometry.JoinPoint | flow/cpp/magical_flow/src/util/Box.h:91-98 | the joined box contains the point and the old box, and is the least such box |
| Geometry.UnionOf | flow/cpp/magical_flow/src/util/Box.h:128-135 | the union contains both boxes and is contained in every box containing both |
| Geometry.Enlarged | flow/cpp/magical_flow/src/util/Box.h:84 | enlarging by d grows each extent by 2d, keeps the centre, and contains the old box when d >= 0 |
| Geometry.ValidBoxContainsCorners | flow/cpp/magical_flow/src/util/Box.h:56-73 | containment is inclusive on all edges: a valid box contains its corners and centre and covers itself |
| Geometry.CoverIffContainBox | flow/cpp/magical_flow/src/util/Box.h:63-73 | for valid boxes, cover (both corners contained) agrees with the edge-wise contain(Box) |
| Geometry.OverlapIntersectSymmetric | flow/cpp/magical_flow/src/util/Box.h:100-126 | overlap and intersect do not depend on which box is the receiver |
| Geometry.OverlapImpliesIntersect | flow/cpp/magical_flow/src/util/Box.h:100-126 | the strict overlap test implies the non-strict intersect test |
| Geometry.OverlapSelfIffInterior | flow/cpp/magical_flow/src/util/Box.h:100-112 | a box overlaps itself exactly when its width and height are positive |
| Geometry.EdgeTouchingIntersectsWithoutOverlap | flow/cpp/magical_flow/src/util/Box.h:100-126 | [0,0,2,2] and [2,0,4,2] intersect but do not overlap |
| Geometry.OverlapIffSharedInteriorPoint | flow/cpp/magical_flow/src/util/Box.h:100-112 | for boxes with interiors, overlap holds exactly when some point lies strictly inside both |
| Geometry.UnionCommutative | flow/cpp/magical_flow/src/util/Box.h:128-135 | unionBox gives the same box whichever operand is the receiver |
| Geometry.UnionIdempotent | flow/cpp/magical_flow/src/util/Box.h:128-135 | a second unionBox with the same box changes nothing, and a box united with itself is itself |
| Geometry.UnionCoversOperands | flow/cpp/magical_flow/src/util/Box.h:128-135 | the union of valid boxes is valid and covers both operands |
| Geometry.JoinContainedPointIsIdentity | flow/cpp/magical_flow/src/util/Box.h:91-98 | joining a point a valid box already contains leaves the box unchanged |
| Geometry.OffsetRoundTrip | flow/cpp/magical_flow/src/util/Box.h:79 | offsetting by o and then by -o gives back the box |
| Geometry.BoxAreParallelOverlap | flow/cpp/magical_flow/src/util/Box.h:140-157 | no contract of its own: separated on one axis while their spans overlap on the other; ParallelRunMatchesParallelOverlap relates it to the run |
| Geometry.BoxParallelRun | flow/cpp/magical_flow/src/util/Box.h:160-177 | no contract of its own: the shared span of facing boxes, else 0; ParallelRunMatchesParallelOverlap and ParallelRunIsSharedLength state its meaning |
| Geometry.BoxSpacing | flow/cpp/magical_flow/src/util/Box.h:180-205 | no contract of its own: the gap between facing edges, 0 for intersecting boxes, the operands of the diagonal distance otherwise; the Spacing lemmas state its cases |
| Geometry.BoxWidth | flow/cpp/magical_flow/src/util/Box.h:208-225 | no contract of its own: the widths across the facing direction; BoxWidthCases states its cases |
| Geometry.ParallelRunMatchesParallelOverlap | flow/cpp/magical_flow/src/util/Box.h:138-177 | the parallel run is non-negative, positive only for parallel-overlapping boxes, positive for every such pair with interiors, and 0 otherwise |
| Geometry.FlatBoxFacesWithZeroRun | flow/cpp/magical_flow/src/util/Box.h:138-177 | a zero-height box facing another box is parallel-overlapping yet has run 0 |
| Geometry.ParallelRunIsSharedLength | flow/cpp/magical_flow/src/util/Box.h:158-177 | for x-separated boxes the run is symmetric and is the length of the shared y-interval |
| Geometry.BoxWidthCases | flow/cpp/magical_flow/src/util/Box.h:206-225 | boxWidth is (0,0) unless the boxes face each other, the x-lengths when they face across x, the y-lengths when they face across y |
| Geometry.DiagonalBoxesHaveZeroWidth | flow/cpp/magical_flow/src/util/Box.h:178-225 | diagonally placed squares have width (0,0) and a diagonal spacing |
| Geometry.SpacingOfOverlapAndFacingBoxes | flow/cpp/magical_flow/src/util/Box.h:178-205 | overlapping boxes are 0 apart, facing boxes are the gap between facing edges apart, and an exact spacing is never negative |
| Geometry.SpacingOfIntersectingBoxes | flow/cpp/magical_flow/src/util/Box.h:178-205 | intersecting valid boxes are 0 apart, exactly or through coinciding corners |
| Geometry.BoxUnionRectangle | flow/cpp/magical_flow/src/util/Box.h:229-252 | no contract of its own: the test as written; UnionRectangleAcceptsGap and UnionRectangleRejectsOverlap show where it disagrees with the union being a rectangle |
| Geometry.BoxUnionRectangleFixed | flow/cpp/magical_flow/src/util/Box.h:229-252 | no contract of its own: the corrected test; UnionRectangleFixedCorrect proves it holds exactly when the union is a rectangle |
| Geometry.UnionRectangleAcceptsGap | flow/cpp/magical_flow/src/util/Box.h:237-250 | as written, two squares with a gap between them are accepted although their union is not a rectangle |
| Geometry.UnionRectangleRejectsOverlap | flow/cpp/magical_flow/src/util/Box.h:237-250 | as written, two overlapping boxes of equal width are rejected although their union is a rectangle |
| Geometry.UnionRectangleFixedCorrect | flow/cpp/magical_flow/src/util/Box.h:227-252 | for valid boxes the corrected test holds exactly when the union of the two boxes is a rectangle |
| Geometry.GapLeavesHole | flow/cpp/magical_flow/src/util/Box.h:237-250 | two boxes of the same span with a gap between them leave the gap's midpoint uncovered, so their union is not a rectangle |
| Geometry.FixedImpliesRectangle | flow/cpp/magical_flow/src/util/Box.h:227-252 | the corrected test accepts only pairs whose union is a rectangle |
| Geometry.RectangleImpliesFixed | flow/cpp/magical_flow/src/util/Box.h:227-252 | the corrected test accepts every pair whose union is a rectangle |
| Geometry.BoxVar.constructor | flow/cpp/magical_flow/src/util/Box.h:17 | the object holds the given corners |
| Geometry.BoxVar.Set | flow/cpp/magical_flow/src/util/Box.h:34 | set replaces all four edges |
| Geometry.BoxVar.SetXLo | flow/cpp/magical_flow/src/util/Box.h:35 | only the low x edge changes |
| Geometry.BoxVar.SetYLo | flow/cpp/magical_flow/src/util/Box.h:36 | only the low y edge changes |
| Geometry.BoxVar.SetXHi | flow/cpp/magical_flow/src/util/Box.h:37 | only the high x edge changes |
| Geometry.BoxVar.SetYHi | flow/cpp/magical_flow/src/util/Box.h:38 | only the high y edge changes |
| Geometry.BoxVar.Join | flow/cpp/magical_flow/src/util/Box.h:92-98 | the new box is JoinPoint of the old one: the least box containing the old box and the point |
| Geometry.BoxVar.UnionBox | flow/cpp/magical_flow/src/util/Box.h:129-135 | the new box is UnionOf the old one and the operand |
| Geometry.BoxVar.OffsetBy | flow/cpp/magical_flow/src/util/Box.h:80 | offsetBy leaves the box equal to offsetBox of its old value |
| Geometry.BoxVar.EnlargeBy | flow/cpp/magical_flow/src/util/Box.h:84 | the new box is Enlarged of the old one |
| FlatGrid.XyToIndex | flow/cpp/magical_flow/src/util/Vector2D.h:101-113 | no contract of its own: the layout's formula in 32-bit unsigned arithmetic; XyToIndexInRange states its range on grids of at most 2^32 cells, XyToIndexWrapsPastIndexRange the collision of two cells on larger grids |
| FlatGrid.IdxToX | flow/cpp/magical_flow/src/util/Vector2D.h:115-126 | no contract of its own: division or remainder by the extent; IdxToXYRoundTrip proves it inverts xyToIndex |
| FlatGrid.IdxToY | flow/cpp/magical_flow/src/util/Vector2D.h:128-139 | no contract of its own: remainder or division by the extent; IdxToXYRoundTrip proves it inverts xyToIndex |
| FlatGrid.XyToIndexInRange | flow/cpp/magical_flow/src/util/Vector2D.h:101-139 | for an in-range cell the index is below xSize*ySize, follows the layout's formula, and idxToX/idxToY recover the cell |
| FlatGrid.IdxToXYRoundTrip | flow/cpp/magical_flow/src/util/Vector2D.h:89-139 | for an index below xSize*ySize, idxToXY gives an in-range cell whose index is the original one |
| FlatGrid.XyToIndexWrapsPastIndexRange | flow/cpp/magical_flow/src/util/Vector2D.h:101-113 | on any grid of more than 2^32 cells, in either layout, the cell at linear position 2^32 is an in-grid cell other than (0, 0) with the same index 0, so the 32-bit index maps two cells to one slot |
| FlatGrid.PositionPastRange | flow/cpp/magical_flow/src/util/Vector2D.h:101-113 | with stride w and h strides holding more than 2^32 cells, position 2^32 splits into a row below h and a column below w |
| FlatGrid.YMajorPlacement | flow/cpp/magical_flow/src/util/Vector2D.h:154-158 | the y-major initializer places list element idx inside the array |
| FlatGrid.YMajorPlacementInjective | flow/cpp/magical_flow/src/util/Vector2D.h:154-159 | distinct list elements go to distinct array positions |
| FlatGrid.YMajorPlacementOfCell | flow/cpp/magical_flow/src/util/Vector2D.h:154-159 | the element listed for cell (x, y) in y-major order lands at the cell's x-major index |
| FlatGrid.YMajorFill | flow/cpp/magical_flow/src/util/Vector2D.h:152-159 | the y-major writes through at() over the wrapped size, None once one lands past the end; a successful fill keeps the list's length |
| FlatGrid.YMajorFillSucceedsIff | flow/cpp/magical_flow/src/util/Vector2D.h:152-159 | the writes succeed exactly when every list cell's x-major placement lies inside the vector |
| FlatGrid.YMajorFillStep | flow/cpp/magical_flow/src/util/Vector2D.h:154-159 | one more write through at() either extends the fill with the list cell at its placement, or lands past the end, where the whole fill throws and the size must have wrapped |
| FlatGrid.NoWrapAllPlaced | flow/cpp/magical_flow/src/util/Vector2D.h:143-159 | without wrap-around every list cell lands inside the vector |
| FlatGrid.WrappedIfNotAllPlaced | flow/cpp/magical_flow/src/util/Vector2D.h:143-159 | a list cell landing past the end means xSize * ySize reached 2^32 |
| FlatGrid.YMajorFillPlacesList | flow/cpp/magical_flow/src/util/Vector2D.h:152-159 | without wrap-around every write succeeds and each list cell ends at its own placement, none overwritten by a later one |
| FlatGrid.YMajorFillCells | flow/cpp/magical_flow/src/util/Vector2D.h:152-159 | without wrap-around the cell (x, y) holds list cell xSize*y + x |
| FlatGrid.PlacedCell | flow/cpp/magical_flow/src/util/Vector2D.h:154-159 | in a vector holding every list cell at its placement, the cell (x, y) holds list cell xSize*y + x |
| FlatGrid.YMajorFillWrapThrows | flow/cpp/magical_flow/src/util/Vector2D.h:143-159 | a 65536 by 65537 grid has the wrapped size 65536, and the write of list cell 1 lands at index 65537, so at() throws |
| FlatGrid.Copies | flow/cpp/magical_flow/src/util/Vector2D.h:60 | n copies of the value: length n, every element the value |
| FlatGrid.Resized | flow/cpp/magical_flow/src/util/Vector2D.h:65-66 | std::vector::resize keeps the first elements and fills new ones with the value |
| FlatGrid.Vector2D.constructor | flow/cpp/magical_flow/src/util/Vector2D.h:59 | an empty x-major array of size 0 by 0 |
| FlatGrid.Vector2D.Sized | flow/cpp/magical_flow/src/util/Vector2D.h:60 | x by y zero elements, the element count taken modulo 2^32 |
| FlatGrid.Vector2D.AtIdx | flow/cpp/magical_flow/src/util/Vector2D.h:78-79 | the element at an index below the size, an error otherwise |
| FlatGrid.Vector2D.At | flow/cpp/magical_flow/src/util/Vector2D.h:74-77 | at(x, y) is atIdx(xyToIndex(x, y)) and succeeds for in-range cells of a full array |
| FlatGrid.Vector2D.SetAt | flow/cpp/magical_flow/src/util/Vector2D.h:75 | writing through at(x, y) changes exactly that element, or fails when the index is out of range |
| FlatGrid.Vector2D.Clear | flow/cpp/magical_flow/src/util/Vector2D.h:64 | the array and both sizes become empty; the layout is kept |
| FlatGrid.Vector2D.Resize | flow/cpp/magical_flow/src/util/Vector2D.h:65-66 | sets both sizes and resizes the storage to their 32-bit product, so size() == xSize*ySize without wrap-around |
| FlatGrid.Vector2D.SetType | flow/cpp/magical_flow/src/util/Vector2D.h:67 | changes only the layout, not the elements |
| FlatGrid.Vector2D.FromListYMajor | flow/cpp/magical_flow/src/util/Vector2D.h:142-161 | over the wrapped size xSize*ySize mod 2^32: no grid exactly when a write through at() throws, otherwise the storage is YMajorFill of the list with the layout left x-major; without wrap-around it never throws and at(x, y) holds the element listed for (x, y) |
| FlatGrid.Vector2D.YMajorGridCells | flow/cpp/magical_flow/src/util/Vector2D.h:152-159 | without wrap-around, at(x, y) of the filled x-major grid is list cell xSize*y + x |
| KLib.SwapRemove | flow/cpp/magical_flow/src/util/kLibBase.h:47-50 | one element shorter, the old last element at the erased position, everything else in place, and the multiset minus the erased element |
| KLib.EraseElementInVec | flow/cpp/magical_flow/src/util/kLibBase.h:38-51 | with the size read modulo 2^32: succeeds exactly for an index below that size, leaving the swap-with-last erase cut to that size less one; the plain swap-with-last erase below 2^32 elements; on failure the vector is unchanged |
| KLib.EraseElementInVecInt | flow/cpp/magical_flow/src/util/kLibBase.h:56-65 | as above for a signed index: a negative index also fails |
| KLib.PutTwoInOrder | flow/cpp/magical_flow/src/util/kLibBase.h:70-76 | the results are ordered and are the inputs, swapped only when out of order |
| KLib.PutTwoInOrderBy | flow/cpp/magical_flow/src/util/kLibBase.h:80-86 | swaps exactly when the comparison holds; for an asymmetric comparison the result is in order |
| KLib.AbsDif | flow/cpp/magical_flow/src/util/kLibBase.h:95-98 | the non-negative difference of the two values |
| KLib.IdxDif | flow/cpp/magical_flow/src/util/kLibBase.h:89-92 | the difference of two unsigned indices never underflows and is their absolute difference |
| KLib.IdxAddOverflow | flow/cpp/magical_flow/src/util/kLibBase.h:100-104 | the wrapped-sum test is true exactly when the true sum exceeds the 32-bit range |
| KLib.MoveVector | flow/cpp/magical_flow/src/util/kLibBase.h:109-114 | vTo becomes old vTo followed by old vFrom, vFrom becomes empty, and no element is lost |
| KLib.ManhattanDistance | flow/cpp/magical_flow/src/util/kLibBase.h:146-149 | non-negative, and 0 exactly for equal points |
| KLib.ManhattanDistance3 | flow/cpp/magical_flow/src/util/kLibBase.h:152-161 | non-negative, and 0 exactly for equal points |
| KLib.ManhattanIsMetric | flow/cpp/magical_flow/src/util/kLibBase.h:145-161 | the distance is symmetric and obeys the triangle inequality |
| KLib.AbsDifTriangle | flow/cpp/magical_flow/src/util/kLibBase.h:95-98 | absDif is symmetric and obeys the triangle inequality |
| KLib.XyzAdjacent | flow/cpp/magical_flow/src/util/kLibBase.h:167-170 | adjacent exactly when the 3D Manhattan distance is 1 |
| KLib.XyzAdjacentIsUnitStep | flow/cpp/magical_flow/src/util/kLibBase.h:167-170 | adjacent exactly when the points differ by one unit along one axis |
| KLib.IsSpace | flow/cpp/magical_flow/src/util/kLibBase.h:177 | no contract of its own: the six characters std::isspace accepts in the "C" locale |
| KLib.LeftTrimmed | flow/cpp/magical_flow/src/util/kLibBase.h:175-179 | a suffix of the string, with only whitespace removed and no leading whitespace left |
| KLib.LTrim | flow/cpp/magical_flow/src/util/kLibBase.h:175-179 | the erase loop leaves LeftTrimmed of the string |
| KLib.LeftTrimmedFixed | flow/cpp/magical_flow/src/util/kLibBase.h:175-179 | a string without leading whitespace is unchanged by ltrim |
| KLib.RightTrimmed | flow/cpp/magical_flow/src/util/kLibBase.h:182-186 | a prefix of the string, with only whitespace removed and no trailing whitespace left |
| KLib.RTrim | flow/cpp/magical_flow/src/util/kLibBase.h:182-186 | the erase loop leaves RightTrimmed of the string |
| KLib.RightTrimmedFixed | flow/cpp/magical_flow/src/util/kLibBase.h:182-186 | a string without trailing whitespace is unchanged by rtrim |
| KLib.Trimmed | flow/cpp/magical_flow/src/util/kLibBase.h:189-192 | trim leaves no leading and no trailing whitespace |
| KLib.TrimmedIsSlice | flow/cpp/magical_flow/src/util/kLibBase.h:189-192 | trim removes only whitespace from the two ends and keeps the interior as a contiguous slice |
| KLib.TrimIdempotent | flow/cpp/magical_flow/src/util/kLibBase.h:189-192 | trimming twice is trimming once |
| KLib.Trim | flow/cpp/magical_flow/src/util/kLibBase.h:189-192 | rtrim then ltrim leaves Trimmed of the string |
| KLib.RFind | flow/cpp/magical_flow/src/util/kLibBase.h:199 | rfind gives the last position of the character, or none exactly when it is absent |
| KLib.AfterLast | flow/cpp/magical_flow/src/util/kLibBase.h:197-222 | the text after the last separator: a suffix holding no separator, the whole text when there is none |
| KLib.BeforeLast | flow/cpp/magical_flow/src/util/kLibBase.h:208-229 | the text before the last separator: a prefix followed by the separator, the whole text when there is none |
| KLib.SplitAtLastRoundTrip | flow/cpp/magical_flow/src/util/kLibBase.h:197-229 | with a separator present, before + separator + after gives back the text |
| KLib.ParsePath2Name | flow/cpp/magical_flow/src/util/kLibBase.h:197-203 | the text after the last '/', which holds no '/'; the whole string when there is none |
| KLib.ParseFile2Path | flow/cpp/magical_flow/src/util/kLibBase.h:208-214 | the text before the last '/', or the whole string when there is none |
| KLib.PathSplitRoundTrip | flow/cpp/magical_flow/src/util/kLibBase.h:197-214 | with a '/', directory + "/" + name gives back the path |
| KLib.ParseSuffix | flow/cpp/magical_flow/src/util/kLibBase.h:217-222 | the text after the last '.', which holds no '.'; the whole string when there is none |
| KLib.TrimSuffix | flow/cpp/magical_flow/src/util/kLibBase.h:225-229 | the text before the last '.', or the whole string when there is none |
| KLib.SuffixSplitRoundTrip | flow/cpp/magical_flow/src/util/kLibBase.h:217-229 | with a '.', stem + "." + suffix gives back the name |
| BLib.EraseFast | flow/cpp/magical_flow/src/util/bLibBase.h:155-161 | with the size read into an int: succeeds exactly for an id in [0, size), giving the swap-with-last erase of the first size elements; the plain swap-with-last erase below 2^31 elements; on failure the vector is unchanged |
| BLib.EraseFastAt | flow/cpp/magical_flow/src/util/bLibBase.h:164-170 | fails on end() with the vector unchanged; throws std::length_error, with the slot already overwritten, when the int size is 0 or negative; otherwise the swap-with-last erase cut to the int size less one, the plain one below 2^31 elements |
| BLib.SizeAsInt | flow/cpp/magical_flow/src/util/bLibBase.h:157 | int size = vec.size(): equal to the size below 2^31, congruent to it modulo 2^32, and never above it when non-negative |
| TypeSelection.TypeRank | flow/cpp/magical_flow/src/util/BasicTypeSelection.h:53-66 | signed integers get the odd ranks below 8 and floating types the ranks 8 and 9 |
| TypeSelection.RankTypeAsWritten | flow/cpp/magical_flow/src/util/BasicTypeSelection.h:69-82 | the table as written inverts TypeRank except at rank 7, which it maps to a type of rank 1 |
| TypeSelection.RankType | flow/cpp/magical_flow/src/util/BasicTypeSelection.h:69-82 | the corrected table inverts TypeRank at every rank |
| TypeSelection.TypeRankIsBijection | flow/cpp/magical_flow/src/util/BasicTypeSelection.h:57-82 | TypeRank is injective, and the corrected table is its inverse on both sides |
| TypeSelection.RankTypeAsWrittenLosesInt64 | flow/cpp/magical_flow/src/util/BasicTypeSelection.h:80 | the table as written gives back every type from its rank except int64_t, which comes back as int8_t |
| TypeSelection.MaxRank | flow/cpp/magical_flow/src/util/BasicTypeSelection.h:86 | the larger of the two ranks |
| TypeSelection.SelectBasicType | flow/cpp/magical_flow/src/util/BasicTypeSelection.h:90-97 | one of the two types, and one whose rank is at least both ranks |
| TypeSelection.SelectBasicTypeAsWritten | flow/cpp/magical_flow/src/util/BasicTypeSelection.h:90-97 | no contract of its own: the table as written applied to the larger rank; SelectBasicTypeAsWrittenNarrowsInt64 shows where it differs from SelectBasicType |
| TypeSelection.SelectBasicTypeSymmetric | flow/cpp/magical_flow/src/util/BasicTypeSelection.h:90-97 | the selection does not depend on the order of the two types, as written and corrected |
| TypeSelection.SelectBasicTypeAsWrittenNarrowsInt64 | flow/cpp/magical_flow/src/util/BasicTypeSelection.h:90-97 | as written the selection agrees with the corrected one except where that is int64_t, where it gives int8_t, e.g. for (int64_t, int32_t) |
| GdsModel.RefName | flow/cpp/magical_flow/src/util/GdsHelper.h:23-33 | only a structure reference yields a name, its referenced cell |
| GdsModel.GetSName | flow/cpp/magical_flow/src/util/GdsHelper.h:22-33 | no contract of its own: a cell reference gives its referenced cell, any other element leaves the name; RefName states what topCell reads through it |
| GdsModel.HasCell | flow/cpp/magical_flow/src/writer/GdsWriter.h:83 | no contract of its own: some cell has the name, as getCell returning non-NULL |
| GdsModel.StrLessStrictTotal | flow/cpp/magical_flow/src/util/GdsHelper.h:62 | std::string comparison, the key order of std::map, is irreflexive, asymmetric and total |
| GdsModel.StrLessTransitive | flow/cpp/magical_flow/src/util/GdsHelper.h:62 | that order is transitive |
| GdsModel.LeastExists | flow/cpp/magical_flow/src/util/GdsHelper.h:82-88 | every non-empty set of keys has a least key, the first the map iterates |
| GdsModel.LeastUnique | flow/cpp/magical_flow/src/util/GdsHelper.h:82-88 | that least key is unique |
| GdsModel.TopCell | flow/cpp/magical_flow/src/util/GdsHelper.h:59-92 | a non-empty result is the least non-empty cell name referenced by no element; "" exactly when every non-empty cell name is referenced |
| GdsModel.RecordCellNames | flow/cpp/magical_flow/src/util/GdsHelper.h:65-68 | the map holds exactly the cell names, all marked not found |
| GdsModel.MarkReferencedNames | flow/cpp/magical_flow/src/util/GdsHelper.h:69-80 | afterwards a key is marked found exactly when some element references it, and referenced non-cell names are keys too |
| GdsModel.MarkCellReferences | flow/cpp/magical_flow/src/util/GdsHelper.h:71-79 | the elements of one more cell are accounted for |
| GdsModel.FirstUnreferenced | flow/cpp/magical_flow/src/util/GdsHelper.h:82-91 | the scan returns the least non-empty unfound key, or "" when there is none |
| GdsModel.CandidatesIgnoreCellOrder | flow/cpp/magical_flow/src/util/GdsHelper.h:62-88 | reordering the cells does not change which names can be the top cell |
| GdsModel.ReferencedInEither | flow/cpp/magical_flow/src/util/GdsHelper.h:69-80 | a name referenced in one database is referenced in any database holding the same cells |
| GdsModel.CandidateExamples | flow/cpp/magical_flow/src/util/GdsHelper.h:69-90 | cells referencing each other in a ring give no top cell; a name that is only referenced is never the top cell |
| LayoutWriter.RectPoints | flow/cpp/magical_flow/src/writer/GdsWriter.h:120-128 | a closed ring of five corners, first equal to last, with each step along one axis and four distinct corners for a box with interior |
| LayoutWriter.RectObject | flow/cpp/magical_flow/src/writer/GdsWriter.h:120-133 | no contract of its own: the boundary on the PDK layer with the rectangle's datatype and corner points; RectObjectsContents states the objects added |
| LayoutWriter.TextObject | flow/cpp/magical_flow/src/writer/GdsWriter.h:135-140 | no contract of its own: the text with INT_MAX datatype and width, presentation 5; TextObjectsContents states the objects added |
| LayoutWriter.CktCell | flow/cpp/magical_flow/src/writer/GdsWriter.h:79-104 | no contract of its own: the cell named after the circuit with its layers' objects; WrittenLayoutContents states what it holds |
| LayoutWriter.CellRefObject | flow/cpp/magical_flow/src/writer/GdsWriter.h:142-168 | a reference to the node's cell at its offset, angle 0, magnification 1, strans 0 exactly for orientation N and the reflection bit otherwise |
| LayoutWriter.CountsOfConcat | flow/cpp/magical_flow/src/writer/GdsWriter.h:94-104 | boundary and text counts add up over appended element lists |
| LayoutWriter.RectObjectsContents | flow/cpp/magical_flow/src/writer/GdsWriter.h:96-99 | one boundary per rectangle, in order, with the mapped layer and the rectangle's own datatype |
| LayoutWriter.TextObjectsContents | flow/cpp/magical_flow/src/writer/GdsWriter.h:100-103 | one text per label, in order, with INT_MAX as datatype and width |
| LayoutWriter.ObjectKinds | flow/cpp/magical_flow/src/writer/GdsWriter.h:94-104 | rectangles become boundaries and labels become texts |
| LayoutWriter.LayerCounts | flow/cpp/magical_flow/src/writer/GdsWriter.h:94-104 | a layer gives as many boundaries as rectangles and as many texts as labels |
| LayoutWriter.LayersPolygonCount | flow/cpp/magical_flow/src/writer/GdsWriter.h:94-99 | the cell holds one boundary per rectangle of the layout |
| LayoutWriter.LayersTextCount | flow/cpp/magical_flow/src/writer/GdsWriter.h:94-104 | the cell holds one text per label of the layout |
| LayoutWriter.LayersObjectsKinds | flow/cpp/magical_flow/src/writer/GdsWriter.h:94-117 | the cell holds boundaries and texts only, no structure reference |
| LayoutWriter.GdsWriter.constructor | flow/cpp/magical_flow/src/writer/GdsWriter.h:25 | the writer holds the design, the layer map and an empty GDSII database |
| LayoutWriter.GdsWriter.AddRect2Cell | flow/cpp/magical_flow/src/writer/GdsWriter.h:120-133 | appends the rectangle's boundary to the cell and changes nothing else |
| LayoutWriter.GdsWriter.AddText2Cell | flow/cpp/magical_flow/src/writer/GdsWriter.h:135-140 | appends the label's text to the cell and changes nothing else |
| LayoutWriter.GdsWriter.AddCellRef2Cell | flow/cpp/magical_flow/src/writer/GdsWriter.h:142-169 | appends the node's structure reference to the cell and changes nothing else |
| LayoutWriter.GdsWriter.AddLayerRects | flow/cpp/magical_flow/src/writer/GdsWriter.h:96-99 | appends the boundaries of the layer's rectangles, in order |
| LayoutWriter.GdsWriter.AddLayerTexts | flow/cpp/magical_flow/src/writer/GdsWriter.h:100-103 | appends the texts of the layer's labels, in order |
| LayoutWriter.GdsWriter.AddLayer | flow/cpp/magical_flow/src/writer/GdsWriter.h:94-104 | appends the layer's boundaries, then its texts |
| LayoutWriter.GdsWriter.AddCktGraph | flow/cpp/magical_flow/src/writer/GdsWriter.h:79-118 | does nothing when a cell of the circuit's name exists; otherwise adds exactly that one cell holding the layout; afterwards the cell exists |
| LayoutWriter.GdsWriter.WriteGdsLayout | flow/cpp/magical_flow/src/writer/GdsWriter.h:62-77 | afterwards the database holds exactly the circuit's cell |
| LayoutWriter.WrittenLayoutContents | flow/cpp/magical_flow/src/writer/GdsWriter.h:79-118 | the written cell is named after the circuit, has one boundary per rectangle and one text per label, and no reference |
| LayoutWriter.WrittenCellIsUnreferenced | flow/cpp/magical_flow/src/writer/GdsWriter.h:107-117 | a written layout references no cell, so its cell is the top cell when its name is not empty |
| Hierarchy.PathExtend | flow/cpp/magical_flow/src/db/DesignDB.cpp:45-58 | following one non-leaf node extends a reference path |
| Hierarchy.PathStep | flow/cpp/magical_flow/src/db/DesignDB.cpp:45-58 | each step of a path is a reference |
| Hierarchy.PathConcat | flow/cpp/magical_flow/src/db/DesignDB.cpp:38-60 | two paths joined end to start form a path |
| Hierarchy.ClosedPathVisited | flow/cpp/magical_flow/src/db/DesignDB.cpp:28-67 | when every reference out of a visited circuit leads to a visited one, a path that starts at a visited circuit ends at a visited circuit |
| Hierarchy.CountFalse | flow/cpp/magical_flow/src/db/DesignDB.cpp:38-60 | the number of unvisited circuits, at most their count |
| Hierarchy.CountFalseMark | flow/cpp/magical_flow/src/db/DesignDB.cpp:42 | marking an unvisited circuit lowers that number by one; marking a visited one keeps it |
| Hierarchy.PushChildren | flow/cpp/magical_flow/src/db/DesignDB.cpp:45-58 | keeps the old stack below, pushes only unvisited circuits that the popped circuit references, pushes every unvisited one of them, and pushes nothing when all are visited |
| Hierarchy.TopVisitedPushesNothing | flow/cpp/magical_flow/src/db/DesignDB.cpp:40-58 | a circuit popped a second time has no unvisited sub circuit |
| Hierarchy.StepKeepsClosed | flow/cpp/magical_flow/src/db/DesignDB.cpp:38-60 | one pop-mark-push step keeps every reference out of a visited circuit leading to a visited circuit or the stack |
| Hierarchy.StepKeepsCovered | flow/cpp/magical_flow/src/db/DesignDB.cpp:38-60 | one step keeps every unvisited child of a stacked visited circuit above it on the stack |
| Hierarchy.Dfs | flow/cpp/magical_flow/src/db/DesignDB.cpp:34-60 | one search terminates, visits its start, keeps earlier marks, closes the visited set, and starts innerStack with the start |
| Hierarchy.DfsStep | flow/cpp/magical_flow/src/db/DesignDB.cpp:40-58 | one pass marks the popped circuit and either visits one more circuit or shrinks the stack |
| Hierarchy.DesignDB.constructor | flow/cpp/magical_flow/src/db/DesignDB.cpp:69 | the model's own scaffold for the state that line sets: the database holds the given circuits and the given root index (`_rootCkt`), as DesignDB.h, which declares them, is not part of this model |
| Hierarchy.DesignDB.FindRootCkt | flow/cpp/magical_flow/src/db/DesignDB.cpp:13-71 | returns true; with no circuit the root is untouched; otherwise the root is the start of the last search: reached from no smaller index, and every larger index is reached from a smaller one |
| Hierarchy.RootUnique | flow/cpp/magical_flow/src/db/DesignDB.cpp:28-69 | that description fixes the root uniquely |
| Hierarchy.NoReferencesRootIsLast | flow/cpp/magical_flow/src/db/DesignDB.cpp:28-69 | with no non-leaf node the root is the last circuit |
| Hierarchy.ReachedFromRootOrBelow | flow/cpp/magical_flow/src/db/DesignDB.cpp:28-69 | every circuit after the root is reached from the root or a smaller index |
| Hierarchy.RootUnreferencedWhenAcyclic | flow/cpp/magical_flow/src/db/DesignDB.cpp:28-69 | with acyclic references no circuit instantiates the root |
| Hierarchy.ParentIsRootInEitherOrder | flow/cpp/magical_flow/src/db/DesignDB.cpp:28-69 | A referencing B makes A the root whichever index it has |
| Constraint.FirstWord | flow/python/Constraint.py:43 | the longest space-free prefix of the line |
| Constraint.Words | flow/python/Constraint.py:43 | str.split(): non-empty space-free tokens whose concatenation is the line without its spaces |
| Constraint.NonSpaceOfWord | flow/python/Constraint.py:43 | removing spaces keeps a leading word intact |
| Constraint.FirstWordStopsAtSpace | flow/python/Constraint.py:43 | a space ends the first token |
| Constraint.WordsOfJoin | flow/python/Constraint.py:43 | splitting text joined at a space splits the two sides separately |
| Constraint.WordsOfWord | flow/python/Constraint.py:43 | a single token splits into itself |
| Constraint.FirstWordOfWord | flow/python/Constraint.py:43 | the first token of a single token is itself |
| Constraint.SplitLines | flow/python/Constraint.py:41-43 | the tokens of each line of the file, line by line |
| Constraint.DefinedStep | flow/python/Constraint.py:42-45 | a key is defined in one more line exactly when it was defined before or that line defines it |
| Constraint.LastDefinitionNew | flow/python/Constraint.py:44-45 | a line defining a key makes its value the last definition |
| Constraint.LastDefinitionKept | flow/python/Constraint.py:44-45 | a line not defining a key keeps its last definition |
| Constraint.ParseSym | flow/python/Constraint.py:36-46 | the dictionary holds exactly the first tokens of lines with two or more tokens, each mapped to the second token of the last such line |
| Constraint.TokenLines | flow/python/Constraint.py:43-45 | "key value" and "key value extra" both split to start with key and value |
| Constraint.SingleTokenLine | flow/python/Constraint.py:43-45 | a single-token line, with or without surrounding spaces, defines nothing |
| Constraint.IsPySpace | flow/python/Constraint.py:43 | no contract of its own: the characters str.split() without arguments splits at |
| Constraint.PrimaryCell | flow/python/Constraint.py:48-61 | for a circuit whose nodes name circuits of the design: true exactly when the circuit of every node has a device implementation type |
| Constraint.KeywordOf | flow/python/Constraint.py:131-148 | no contract of its own: NMOS, PMOS, RES, CAP for the four devices and OTHER for the rest; DeviceLinesShape states where it is written |
| Constraint.NodeRecord | flow/python/Constraint.py:130-152 | no contract of its own: Inst, the id, the device lines and the pin lines; NodeRecordStart and NodeRecordLength state its shape |
| Constraint.NodeRecords | flow/python/Constraint.py:124-154 | no contract of its own: the records of the first n nodes in order; WriteNodeRecords is proved against it |
| Constraint.Format | flow/python/Constraint.py:127 | %-formatting with %s conversions: succeeds exactly when the number of items equals the number of conversions, and raises TypeError otherwise |
| Constraint.FormatLiteral | flow/python/Constraint.py:127 | text without % adds no conversion and is copied in front of the formatted rest |
| Constraint.FormatConversion | flow/python/Constraint.py:127 | a %s conversion takes the next item |
| Constraint.NonInstanceTailFilled | flow/python/Constraint.py:127 | " contains non instance %s" has one conversion, filled with the node |
| Constraint.NonInstanceFormatFilled | flow/python/Constraint.py:127 | the device check's format has two conversions, and two items fill it as "Circuit <circuit> contains non instance <node>" |
| Constraint.DeviceCheckErrorAsWritten | flow/python/Constraint.py:127 | no contract of its own: the exception from formatting the message with the one item ckt.name + instNode.name |
| Constraint.DeviceCheckRaisesTypeError | flow/python/Constraint.py:127 | as written, a failing device check raises TypeError for every circuit and node name |
| Constraint.DeviceCheckError | flow/python/Constraint.py:127 | the intended exception: an AssertionError naming the circuit and the node |
| Constraint.DeviceLines | flow/python/Constraint.py:131-148 | three lines for a sized device, two otherwise |
| Constraint.PinLines | flow/python/Constraint.py:149-152 | one line per pin |
| Constraint.NetRecords | flow/python/Constraint.py:155-156 | three lines per net |
| Constraint.WriteNodeRecord | flow/python/Constraint.py:126-154 | writes the node's record after the records of the nodes before it |
| Constraint.WriteNetRecords | flow/python/Constraint.py:155-156 | writes one NET record per net in index order |
| Constraint.NoDeviceBeforeMeans | flow/python/Constraint.py:125-127 | the recursive "assertion passed so far" predicate means no earlier node is itself a device |
| Constraint.WriteNodeRecords | flow/python/Constraint.py:124-154 | writes the records of the nodes, node k under instance id k, stopping at the first node whose own implementation type is a device, where the device check raises |
| Constraint.WriteInitObj | flow/python/Constraint.py:116-156 | raises nothing exactly when no node fails the device check, and then writes all node records and all net records; otherwise keeps the records before the first failing node and raises the intended AssertionError naming the circuit and that node |
| Constraint.DeviceLinesShape | flow/python/Constraint.py:130-148 | device lines are the keyword and the name, then three sizes exactly for MOS and two exactly for resistors and capacitors |
| Constraint.PinLinesNets | flow/python/Constraint.py:149-152 | pin line p holds the net of pin p |
| Constraint.NetRecordsLayout | flow/python/Constraint.py:155-156 | net record i is NET, i and the net's name at lines 3i to 3i+2 |
| Constraint.NodeRecordStart | flow/python/Constraint.py:130-148 | a record starts with Inst, its id, the keyword of the node's circuit and the node's name |
| Constraint.NodeRecordLength | flow/python/Constraint.py:130-152 | a record has two lines, the device lines and one line per pin |
| MagicalDb.ImplTypeStr | flow/python/MagicalDB.py:124-135 | "UNKNOWN" exactly for types other than the five named ones |
| MagicalDb.ImplTypeStrDistinguishesKnownTypes | flow/python/MagicalDB.py:124-135 | the five named types get five different names |
| MagicalDb.PathOf | flow/python/MagicalDB.py:35 | resultDir + netlist is Python's `+`: two strings or two lists concatenate (prefix and suffix kept), numbers and booleans add with booleans as 0 and 1, and TypeError is raised exactly for every other pair (None, dictionaries, mixed kinds) |
| MagicalDb.PathOfNoneRaises | flow/python/MagicalDB.py:35 | `+` with None on either side raises TypeError |
| MagicalDb.InputNetlist | flow/python/MagicalDB.py:33-40 | NameError exactly when both netlists are None; hspice when set, spectre only when hspice is None, and the reader receives PathOf of the chosen setting, whose TypeError propagates |
| MagicalDb.HspiceNetlistPreferred | flow/python/MagicalDB.py:33-40 | the hspice netlist wins whatever spectre is; with string settings the reader receives resultDir + name, and a None resultDir raises TypeError |
| MagicalDb.ContainsListedNames | flow/python/MagicalDB.py:87-89 | `in` on a list of names is membership in that list |
| MagicalDb.Contains | flow/python/MagicalDB.py:87-89 | no contract of its own: Python's in on a list, a string or a dictionary; ContainsListedNames states it for lists of names |
| MagicalDb.PowerMarkingFacts | flow/python/MagicalDB.py:72-90 | power marking keeps names and signal flags, only sets power flags, marks p-substrate nets ground and n-well nets power, and marks a net named in both lists as both |
| MagicalDb.PowerMarkingIdempotent | flow/python/MagicalDB.py:72-90 | marking power nets twice is marking them once |
| MagicalDb.DigitalMarkingExclusive | flow/python/MagicalDB.py:95-105 | on unmarked nets, exactly one of digital and analog is set, digital exactly when the name is listed |
| MagicalDb.PowerMarked | flow/python/MagicalDB.py:72-90 | no contract of its own: every net with its power flags set as markPowerNets sets them; PowerMarkingFacts and PowerMarkingIdempotent state its properties |
| MagicalDb.DigitalMarked | flow/python/MagicalDB.py:95-105 | no contract of its own: every net marked digital when listed and analog otherwise; DigitalMarkingExclusive states its properties |
| MagicalDb.MarkPsubNets | flow/python/MagicalDB.py:76-78 | marks every p-substrate net ground |
| MagicalDb.MarkNwellNets | flow/python/MagicalDB.py:79-81 | then marks every n-well net power |
| MagicalDb.MarkNamedNets | flow/python/MagicalDB.py:83-90 | then marks the nets named in the vdd list power and those in the vss list ground |
| MagicalDb.MarkCircuitPowerNets | flow/python/MagicalDB.py:74-90 | one circuit's power marking gives PowerMarked of the circuit |
| MagicalDb.MarkCircuitDigitalNets | flow/python/MagicalDB.py:97-105 | one circuit's digital marking gives DigitalMarked of the circuit |
| MagicalDb.MagicalDB.constructor | flow/python/MagicalDB.py:12-16 | the database keeps the parameters and starts with digital names ["clk"] |
| MagicalDb.MagicalDB.MarkPowerNets | flow/python/MagicalDB.py:72-90 | every circuit becomes PowerMarked with the parameters' vdd and vss lists |
| MagicalDb.MagicalDB.MarkDigitalNets | flow/python/MagicalDB.py:95-105 | every circuit becomes DigitalMarked with the parameters' digital names, not the object's own |
| FlowParams.StringList | flow/python/Params.py:25-26 | a list of names as a JSON array of the same strings |
| FlowParams.Defaults | flow/python/Params.py:16-34 | no contract of its own: the values __init__ gives; Params.constructor is proved to set them |
| FlowParams.ToJsonOf | flow/python/Params.py:89-94 | the dictionary has exactly the four written keys |
| FlowParams.Overwritten | flow/python/Params.py:100-107 | no contract of its own: the value under the key when present, else the current one |
| FlowParams.FromJsonOf | flow/python/Params.py:96-107 | no contract of its own: the eight recognised keys overwrite their fields; the FromJson lemmas and JsonRoundTrip state its properties |
| FlowParams.ToJsonHoldsFields | flow/python/Params.py:89-94 | each written key holds its field's current value, and the defaults serialise to None, None, "" and None |
| FlowParams.FromJsonIgnoresUnknownKeys | flow/python/Params.py:100-107 | a key fromJson does not read changes nothing, and an empty dictionary changes nothing |
| FlowParams.FromJsonKeepsUnreadFields | flow/python/Params.py:100-107 | fromJson never sets digital net names, standard cells or layer settings |
| FlowParams.FromJsonIdempotent | flow/python/Params.py:100-107 | loading the same dictionary twice is loading it once |
| FlowParams.JsonRoundTrip | flow/python/Params.py:89-107 | q.fromJson(p.toJson()) copies p's four written fields into q and keeps the rest; p.fromJson(p.toJson()) changes nothing |
| FlowParams.Params.constructor | flow/python/Params.py:16-34 | the fields hold the defaults, the substrate layer following the power layer |
| FlowParams.Params.ToJson | flow/python/Params.py:85-94 | toJson is ToJsonOf of the object's current fields |
| FlowParams.Params.FromJson | flow/python/Params.py:96-107 | afterwards the fields are FromJsonOf of the old fields and the dictionary |
| FlowParams.Params.ReadWrittenKeys | flow/python/Params.py:100-103 | the four written keys overwrite their fields when present |
| FlowParams.Params.ReadTechKeys | flow/python/Params.py:104-107 | lef, techfile and the power net name lists are overwritten when present |

## Left out

- Console and log output (`MsgPrinter`, `INF`, `print`) is not modelled. An error that the source reports and then survives becomes a `false` or error result.
- The `std::hypot` diagonal branch of `boxSpacing` (Box.h:191-193) computes a floating-point distance. It is kept as the uninterpreted pair `Diagonal(xDif, yDif)`.
- `Box` coordinates are unbounded integers. The 32-bit range of `LocType` and overflow in `area()` are not modelled.
- Vector2D constructors at Vector2D.h:61 and Vector2D.h:142-150 do not compile if instantiated. The fill is modelled through `resize`, and only the y-major placement loop of the initializer constructor is modelled. The x-major copy branch is not modelled.
- FlatGrid.Vector2D.FromListYMajor: the initializer constructor becomes a static method. It returns no grid where the C++ constructor throws `std::out_of_range` from `at()`, and the `Assert` on the list size is its precondition.
- KLib.EraseElementInVec: an index past the end is reported with `MsgPrinter::err` and then `Assert(false)` (kLibBase.h:43-44). The model follows a release build, where the assertion is skipped and the call returns `false`.
- KLib.EraseElementInVecInt: the same report and `Assert(false)` (kLibBase.h:59-60) are not modelled. The model follows a release build and returns `false`.
- BLib.EraseFastAt: the `std::length_error` thrown by `resize` when the `int` size is 0 or negative is an error result. The vector is returned as it stands at that point.
- Hierarchy.DesignDB.constructor: DesignDB.h is not part of this model. The circuits and the initial root index are parameters.
- Writing the GDSII file is not modelled: the stream writer, and the units, precision and header taken from the technology database.
- The 0.2 magnification argument of `addText2Cell` is a floating-point value and is not modelled.
- The technology database enters only as its layer map `dbLayerToPdk`, a parameter of the writer.
- The node loop of `addCktGraph` (GdsWriter.h:107-117) has an empty body, because its recursive emission and reference insertion are commented out. The model adds no child cell and no reference, as the code does.
- `AssertMsg` in `topCell` (GdsHelper.h:90) is modelled as the empty-name result it returns after the message.
- `bLibIlp.h` (solver scripts run through `system`/`popen`), `Polygon2Rect.h`, `Flow.py`, `Magical.py` and `setup.py` are not part of this model.
- The C++ type definitions in `type.h` and the GDS database library are not part of this model. Their entities are abstract datatypes here.
- `Constraint.genConstraint`, `primarySym`, `primarySymFile` (external constraint generators and a shell command) and `MagicalDB.computeCurrentFlow` are not part of this model.
- Files are sequences of lines. Opening, reading and writing them is not modelled.
- `writeInitObj` writes text lines such as `"%de-12"`. The model writes one structured `InitLine` per line written, with the same values.
- `magicalFlow.isImplTypeDevice` is C++ that is not visible. It is a parameter predicate of `PrimaryCell` and `WriteInitObj`.
- Constraint.PrimaryCell: requires `NodesInDesign`, meaning every node names a circuit of the design. The Python code would raise `IndexError` on a dangling circuit index, and that error path is not modelled.
- Constraint.WriteInitObj: requires `NodesResolve`, meaning every node names a circuit and every pin index names a pin. The Python code would raise `IndexError` on a dangling index, and that error path is not modelled.
- Constraint.WriteInitObj: a failing device check raises the intended `AssertionError` naming the circuit and the node. As written, the message formatting raises `TypeError` first (see Findings). The check disappears under `python -O`, and that mode is not modelled.
- MagicalDb.InputNetlist: a path that `+` builds from lists or numbers is handed to the reader unchanged; what the C++ reader does with a value that is not a string is not part of this model.
- MagicalDb.MagicalDB.MarkPowerNets: requires the vdd and vss name settings to be values Python's `in` accepts (a list, a string or a dictionary). Other JSON values would raise `TypeError`, and that path is not modelled. It also requires body net indices in range.
- JSON numbers are integers here. The floating-point wire-width, via and spacing tables of `Params.__init__` are not modelled.
- `Params.dump`, `load`, `printWelcome`, `printHelp`, `__str__` and `__repr__` are file or console I/O and are not modelled.
- Hierarchy.DesignDB.FindRootCkt: `sortStack` and `innerStack` are modelled, but only the root is stated. The order of the other entries, which may contain duplicates, is not stated.
- FlatGrid.Vector2D.Resize: states `size() == xSize * ySize` only when the product fits in 32 bits, because the storage size wraps otherwise.

## Findings

| source | as written | input that shows it | evidently intended | confidence | as-written member | corrected member |
|---|---|---|---|---|---|---|
| flow/cpp/magical_flow/src/util/Box.h:237-250 | `boxUnionRectangle` accepts boxes that share an x-span (or y-span) only when they are separated or abutting on the other axis | [0,0,1,1] and [0,2,1,3] are accepted although a gap separates them; [0,0,1,2] and [0,1,1,3] are rejected although their union is a rectangle | true exactly when the union of the two boxes is a rectangle: same span on one axis and touching or overlapping on the other | not executed | Geometry.UnionRectangleAcceptsGap | Geometry.UnionRectangleFixedCorrect |
| flow/cpp/magical_flow/src/util/BasicTypeSelection.h:80 | `RankType<7>` is `int8_t`, so rank 7 (`int64_t`) maps back to rank 1 | `selectBasicType<int64_t, int32_t>::type` is `int8_t`, narrower than both operands | `RankType<7>` is `int64_t`, making `RankType` the inverse of `TypeRank` | not executed | TypeSelection.SelectBasicTypeAsWrittenNarrowsInt64 | TypeSelection.TypeRankIsBijection |
| flow/python/Constraint.py:127 | the message of the device check formats one string, `ckt.name + instNode.name`, into a format with two `%s` (also Constraint.py:74) | any node whose own implementation type is a device: formatting raises `TypeError` before the `AssertionError` | an `AssertionError` naming the circuit and the node, from the operand `(ckt.name, instNode.name)` | not executed | Constraint.DeviceCheckRaisesTypeError | Constraint.DeviceCheckError |
