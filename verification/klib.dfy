/**
 * The `klib` helpers of util/kLibBase.h: swap-with-last erase, ordering and
 * difference helpers, the unsigned overflow test, vector move, Manhattan
 * distances, whitespace trimming and path/suffix splitting.  The string
 * helpers of `bLib` (util/bLibBase.h) are the same code and are modelled here
 * as well.
 *
 * Arguments that the C++ passes by non-const reference and updates in place
 * are in-parameters here, and their new values are out-parameters.
 */
module KLib {
  import opened Wrappers
  import Geometry
  import FlatGrid

  type Index = FlatGrid.Index

  /** `IntType`: a 32-bit signed integer. */
  type Int32 = i: int | -0x8000_0000 <= i < 0x8000_0000

  // ---------------------------------------------------------------------------
  // Swap-with-last erase
  // ---------------------------------------------------------------------------

  /**
   * The vector after its element `i` is overwritten by the last element and
   * the last slot is dropped.  Order is not kept, but nothing else moves.
   */
  function SwapRemove<T>(s: seq<T>, i: nat): (r: seq<T>)
    requires i < |s|
    ensures |r| == |s| - 1
    ensures forall k :: 0 <= k < |r| ==> r[k] == if k == i then s[|s| - 1] else s[k]
    ensures multiset(r) + multiset{s[i]} == multiset(s)
  {
    var last := |s| - 1;
    assert s == s[..last] + [s[last]];
    if i == last then
      s[..last]
    else
      var r := s[i := s[last]][..last];
      assert s[i := s[last]] == r + [s[last]];
      assert multiset(s[i := s[last]]) == multiset(s) - multiset{s[i]} + multiset{s[last]};
      r
  }

  /**
   * `eraseElementInVec(vec, IndexType idx)`.  The size is read into an
   * `IndexType`, so a vector of 2^32 or more elements is seen modulo 2^32.
   * An index at or past that size is reported (`MsgPrinter::err`, then
   * `Assert(false)`, which a release build skips) and the call returns
   * `false` with the vector unchanged.  Otherwise slot `idx` takes the last
   * element and the vector is resized to that size less one.
   */
  method EraseElementInVec<T>(vec: seq<T>, idx: Index) returns (ok: bool, vec': seq<T>)
    ensures ok <==> idx < |vec| % FlatGrid.U32
    ensures !ok ==> vec' == vec
    ensures ok ==> vec' == SwapRemove(vec, idx)[..|vec| % FlatGrid.U32 - 1]
    ensures ok && |vec| < FlatGrid.U32 ==> vec' == SwapRemove(vec, idx)
  {
    var vectorSize: Index := |vec| % FlatGrid.U32;
    if idx >= vectorSize {
      return false, vec;
    }
    vec' := vec[idx := vec[|vec| - 1]];
    vec' := vec'[..vectorSize - 1];
    return true, vec';
  }

  /** `eraseElementInVec(vec, IntType idx)`: a negative index is refused like one past the end. */
  method EraseElementInVecInt<T>(vec: seq<T>, idx: Int32) returns (ok: bool, vec': seq<T>)
    ensures ok <==> 0 <= idx < |vec| % FlatGrid.U32
    ensures !ok ==> vec' == vec
    ensures ok ==> vec' == SwapRemove(vec, idx)[..|vec| % FlatGrid.U32 - 1]
    ensures ok && |vec| < FlatGrid.U32 ==> vec' == SwapRemove(vec, idx)
  {
    if idx < 0 {
      return false, vec;
    }
    ok, vec' := EraseElementInVec(vec, idx as Index);
  }

  // ---------------------------------------------------------------------------
  // Ordering and differences
  // ---------------------------------------------------------------------------

  /** `putTwoInOrder(t1, t2)`: swap when `t1 > t2`. */
  method PutTwoInOrder(t1: int, t2: int) returns (t1': int, t2': int)
    ensures t1' <= t2'
    ensures (t1', t2') == (t1, t2) || (t1', t2') == (t2, t1)
    ensures t1 <= t2 ==> t1' == t1 && t2' == t2
  {
    t1', t2' := t1, t2;
    if t1' > t2' {
      t1', t2' := t2', t1';
    }
  }

  /** `putTwoInOrder(t1, t2, compare)`: swap exactly when `compare(t1, t2)` holds. */
  method PutTwoInOrderBy<T>(t1: T, t2: T, compare: (T, T) -> bool) returns (t1': T, t2': T)
    ensures compare(t1, t2) ==> t1' == t2 && t2' == t1
    ensures !compare(t1, t2) ==> t1' == t1 && t2' == t2
    ensures (forall a: T, b: T :: compare(a, b) ==> !compare(b, a)) ==> !compare(t1', t2')
  {
    t1', t2' := t1, t2;
    if compare(t1', t2') {
      t1', t2' := t2', t1';
    }
  }

  /** `absDif(t1, t2)`: the distance between two numbers. */
  function AbsDif(t1: int, t2: int): (r: int)
    ensures r >= 0 && (r == t1 - t2 || r == t2 - t1)
  {
    if t1 > t2 then t1 - t2 else t2 - t1
  }

  /** `idxDif(i1, i2)`: the distance of two unsigned indices, computed without wrapping below 0. */
  function IdxDif(i1: Index, i2: Index): (r: Index)
    ensures r == AbsDif(i1, i2)
  {
    if i1 > i2 then i1 - i2 else i2 - i1
  }

  /** `idxAddOverflow(idx1, idx2)`: the 32-bit sum is compared with the operands. */
  function IdxAddOverflow(idx1: Index, idx2: Index): (r: bool)
    ensures r <==> idx1 + idx2 >= FlatGrid.U32
  {
    var sum: Index := (idx1 + idx2) % FlatGrid.U32;
    sum < idx1 || sum < idx2
  }

  /** `moveVector(vFrom, vTo)`: `vFrom`'s elements are appended to `vTo`, and `vFrom` is emptied. */
  method MoveVector<T>(vFrom: seq<T>, vTo: seq<T>) returns (vFrom': seq<T>, vTo': seq<T>)
    ensures vFrom' == [] && vTo' == vTo + vFrom
    ensures multiset(vFrom') + multiset(vTo') == multiset(vFrom) + multiset(vTo)
  {
    vTo' := vTo + vFrom;
    vFrom' := [];
  }

  // ---------------------------------------------------------------------------
  // Manhattan distance
  // ---------------------------------------------------------------------------

  /** A point on a routing grid with a layer coordinate (`XYZ<T>`). */
  datatype XYZ = XYZ(x: int, y: int, z: int)
  {
    function XY(): Geometry.XY { Geometry.XY(x, y) }
  }

  /** `manhattanDistance(XY, XY)`. */
  function ManhattanDistance(p: Geometry.XY, q: Geometry.XY): (r: int)
    ensures r >= 0
    ensures r == 0 <==> p == q
  {
    AbsDif(p.x, q.x) + AbsDif(p.y, q.y)
  }

  /** `manhattanDistance(XYZ, XYZ)`: the layer distance plus the planar distance. */
  function ManhattanDistance3(p: XYZ, q: XYZ): (r: int)
    ensures r >= 0
    ensures r == 0 <==> p == q
  {
    AbsDif(p.z, q.z) + ManhattanDistance(p.XY(), q.XY())
  }

  /** Manhattan distance is a metric: symmetric and obeying the triangle inequality. */
  lemma {:induction false} ManhattanIsMetric(p: XYZ, q: XYZ, s: XYZ)
    ensures ManhattanDistance3(p, q) == ManhattanDistance3(q, p)
    ensures ManhattanDistance3(p, s) <= ManhattanDistance3(p, q) + ManhattanDistance3(q, s)
  {
    AbsDifTriangle(p.x, q.x, s.x);
    AbsDifTriangle(p.y, q.y, s.y);
    AbsDifTriangle(p.z, q.z, s.z);
  }

  /** The distance of numbers is symmetric and obeys the triangle inequality. */
  lemma {:induction false} AbsDifTriangle(a: int, b: int, c: int)
    ensures AbsDif(a, b) == AbsDif(b, a)
    ensures AbsDif(a, c) <= AbsDif(a, b) + AbsDif(b, c)
  {
  }

  /** `xyzAdjacent(lhs, rhs)`: the per-axis differences sum to exactly 1. */
  function XyzAdjacent(lhs: XYZ, rhs: XYZ): (r: bool)
    ensures r <==> ManhattanDistance3(lhs, rhs) == 1
  {
    AbsDif(lhs.x, rhs.x) + AbsDif(lhs.y, rhs.y) + AbsDif(lhs.z, rhs.z) == 1
  }

  /** Adjacent points differ by one unit along exactly one axis. */
  lemma {:induction false} XyzAdjacentIsUnitStep(lhs: XYZ, rhs: XYZ)
    ensures XyzAdjacent(lhs, rhs) <==>
      rhs in {XYZ(lhs.x + 1, lhs.y, lhs.z), XYZ(lhs.x - 1, lhs.y, lhs.z),
              XYZ(lhs.x, lhs.y + 1, lhs.z), XYZ(lhs.x, lhs.y - 1, lhs.z),
              XYZ(lhs.x, lhs.y, lhs.z + 1), XYZ(lhs.x, lhs.y, lhs.z - 1)}
  {
  }

  // ---------------------------------------------------------------------------
  // Whitespace trimming
  // ---------------------------------------------------------------------------

  /** `std::isspace` in the "C" locale. */
  predicate IsSpace(c: char)
  {
    c == ' ' || c == '\t' || c == '\n' || c == '\r' || c == '\U{0B}' || c == '\U{0C}'
  }

  /** The string with its leading whitespace removed. */
  function LeftTrimmed(s: string): (r: string)
    ensures |r| <= |s| && r == s[|s| - |r|..]
    ensures forall i :: 0 <= i < |s| - |r| ==> IsSpace(s[i])
    ensures r == [] || !IsSpace(r[0])
  {
    if |s| > 0 && IsSpace(s[0]) then LeftTrimmed(s[1..]) else s
  }

  /** The string with its trailing whitespace removed. */
  function RightTrimmed(s: string): (r: string)
    ensures |r| <= |s| && r == s[..|r|]
    ensures forall i :: |r| <= i < |s| ==> IsSpace(s[i])
    ensures r == [] || !IsSpace(r[|r| - 1])
  {
    if |s| > 0 && IsSpace(s[|s| - 1]) then RightTrimmed(s[..|s| - 1]) else s
  }

  /** `trim(s)` is `ltrim(rtrim(s))`. */
  function Trimmed(s: string): (r: string)
    ensures r == [] || (!IsSpace(r[0]) && !IsSpace(r[|r| - 1]))
  {
    LeftTrimmed(RightTrimmed(s))
  }

  /** The trimmed string is the slice of `s` between its leading and its trailing whitespace. */
  lemma {:induction false} TrimmedIsSlice(s: string)
    ensures var rt := RightTrimmed(s);
      var k := |rt| - |Trimmed(s)|;
      0 <= k <= |rt| <= |s| && Trimmed(s) == s[k..|rt|] &&
      (forall i :: 0 <= i < k ==> IsSpace(s[i])) &&
      (forall i :: |rt| <= i < |s| ==> IsSpace(s[i]))
  {
    var rt := RightTrimmed(s);
    var k := |rt| - |Trimmed(s)|;
    assert rt == s[..|rt|];
    assert Trimmed(s) == rt[k..];
    forall i | 0 <= i < k
      ensures IsSpace(s[i])
    {
      assert s[i] == rt[i];
    }
  }

  /** A string without leading whitespace is its own left trim. */
  lemma {:induction false} LeftTrimmedFixed(s: string)
    requires s == [] || !IsSpace(s[0])
    ensures LeftTrimmed(s) == s
  {
  }

  /** A string without trailing whitespace is its own right trim. */
  lemma {:induction false} RightTrimmedFixed(s: string)
    requires s == [] || !IsSpace(s[|s| - 1])
    ensures RightTrimmed(s) == s
  {
  }

  /** Trimming twice is trimming once. */
  lemma {:induction false} TrimIdempotent(s: string)
    ensures Trimmed(Trimmed(s)) == Trimmed(s)
  {
    var t := Trimmed(s);
    RightTrimmedFixed(t);
    LeftTrimmedFixed(t);
  }

  /** `ltrim(s)`: erase from the start up to the first non-space character. */
  method LTrim(s: string) returns (r: string)
    ensures r == LeftTrimmed(s)
  {
    var i := 0;
    while i < |s| && IsSpace(s[i])
      invariant 0 <= i <= |s|
      invariant LeftTrimmed(s[i..]) == LeftTrimmed(s)
    {
      assert s[i..][1..] == s[i + 1..];
      i := i + 1;
    }
    r := s[i..];
  }

  /** `rtrim(s)`: erase from just after the last non-space character to the end. */
  method RTrim(s: string) returns (r: string)
    ensures r == RightTrimmed(s)
  {
    var j := |s|;
    while j > 0 && IsSpace(s[j - 1])
      invariant 0 <= j <= |s|
      invariant RightTrimmed(s[..j]) == RightTrimmed(s)
    {
      assert s[..j][..j - 1] == s[..j - 1];
      j := j - 1;
    }
    assert s[..|s|] == s;
    r := s[..j];
  }

  /** `trim(s)`: `rtrim` first, then `ltrim`. */
  method Trim(s: string) returns (r: string)
    ensures r == Trimmed(s)
  {
    r := RTrim(s);
    r := LTrim(r);
  }

  // ---------------------------------------------------------------------------
  // Path and suffix splitting
  // ---------------------------------------------------------------------------

  /** `std::string::rfind(c)`: the last position holding `c`, `None` for `npos`. */
  function RFind(s: string, c: char): (r: Option<nat>)
    ensures r.None? <==> c !in s
    ensures r.Some? ==> r.value < |s| && s[r.value] == c
    ensures r.Some? ==> forall j :: r.value < j < |s| ==> s[j] != c
  {
    if |s| == 0 then None
    else if s[|s| - 1] == c then Some(|s| - 1)
    else
      assert s == s[..|s| - 1] + [s[|s| - 1]];
      RFind(s[..|s| - 1], c)
  }

  /** The text after the last `sep`, or the whole text when there is none. */
  function AfterLast(s: string, sep: char): (r: string)
    ensures sep !in r
    ensures |r| <= |s| && r == s[|s| - |r|..]
    ensures sep !in s ==> r == s
  {
    match RFind(s, sep)
    case None => s
    case Some(pos) => s[pos + 1..]
  }

  /** The text before the last `sep`; the whole text when there is none (`substr(0, npos)`). */
  function BeforeLast(s: string, sep: char): (r: string)
    ensures sep !in s ==> r == s
    ensures sep in s ==> |r| < |s| && r == s[..|r|] && s[|r|] == sep
  {
    match RFind(s, sep)
    case None => s
    case Some(pos) => s[..pos]
  }

  /** With a `sep` present, the text before it, the separator and the text after it give back the text. */
  lemma {:induction false} SplitAtLastRoundTrip(s: string, sep: char)
    requires sep in s
    ensures BeforeLast(s, sep) + [sep] + AfterLast(s, sep) == s
  {
    var pos := RFind(s, sep).value;
    assert s == s[..pos] + [sep] + s[pos + 1..];
  }

  /** `parsePath2Name(path)`: the text after the last '/', or the whole path. */
  function ParsePath2Name(path: string): (r: string)
    ensures '/' !in r
    ensures |r| <= |path| && r == path[|path| - |r|..]
    ensures '/' !in path ==> r == path
  {
    AfterLast(path, '/')
  }

  /** `parseFile2Path(path)`: the text before the last '/', or the whole path. */
  function ParseFile2Path(path: string): (r: string)
    ensures '/' !in path ==> r == path
    ensures '/' in path ==> |r| < |path| && r == path[..|r|] && path[|r|] == '/'
  {
    BeforeLast(path, '/')
  }

  /** With a '/' present, the directory, the separator and the name give back the path. */
  lemma {:induction false} PathSplitRoundTrip(path: string)
    requires '/' in path
    ensures ParseFile2Path(path) + "/" + ParsePath2Name(path) == path
  {
    SplitAtLastRoundTrip(path, '/');
  }

  /** `parseSuffix(name)`: the text after the last '.', or the whole name. */
  function ParseSuffix(name: string): (r: string)
    ensures '.' !in r
    ensures |r| <= |name| && r == name[|name| - |r|..]
    ensures '.' !in name ==> r == name
  {
    AfterLast(name, '.')
  }

  /** `trimSuffix(name)`: the text before the last '.', or the whole name. */
  function TrimSuffix(name: string): (r: string)
    ensures '.' !in name ==> r == name
    ensures '.' in name ==> |r| < |name| && r == name[..|r|] && name[|r|] == '.'
  {
    BeforeLast(name, '.')
  }

  /** With a '.' present, the stem, the dot and the suffix give back the name. */
  lemma {:induction false} SuffixSplitRoundTrip(name: string)
    requires '.' in name
    ensures TrimSuffix(name) + "." + ParseSuffix(name) == name
  {
    SplitAtLastRoundTrip(name, '.');
  }
}
