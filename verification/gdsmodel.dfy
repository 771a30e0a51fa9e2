/**
 * A GDSII database as seen by the flow (the `GdsParser::GdsDB` library is not
 * part of this model): cells holding polygons, texts and cell references.
 * Also the helpers of util/GdsHelper.h that read the name of a cell
 * reference and find the top cell of a database.
 */
module GdsModel {
  import Geometry

  /**
   * A GDSII element.  Only a cell reference (SREF) names another cell; every
   * other element kind is `OtherObject`.  A text's fields follow the argument
   * order of `addText`; its floating-point magnification is not part of this
   * model.
   */
  datatype GdsObject =
    | Polygon(layer: int, dataType: int, points: seq<Geometry.XY>)
    | Text(layer: int, dataType: int, textType: int, text: string, position: Geometry.XY,
           width: int, presentation: int, strans: int, angle: int)
    | CellRef(refCell: string, position: Geometry.XY, angle: int, magnification: int, strans: int)
    | OtherObject

  /** A GDSII structure: a name and its elements. */
  datatype GdsCell = GdsCell(name: string, objects: seq<GdsObject>)

  /** A cell of this name exists. */
  predicate HasCell(cells: seq<GdsCell>, name: string)
  {
    exists i :: 0 <= i < |cells| && cells[i].name == name
  }

  // ---------------------------------------------------------------------------
  // Names of referenced cells
  // ---------------------------------------------------------------------------

  /**
   * `GetSRefNameActionDetails::getSName(name, object)`: a cell reference
   * overwrites `name` with the referenced cell; any other element leaves it.
   */
  function GetSName(name: string, obj: GdsObject): string
  {
    match obj
    case CellRef(refCell, _, _, _, _) => refCell
    case _ => name
  }

  /** The name `topCell` reads from an element: `getSName` applied to the empty string. */
  function RefName(obj: GdsObject): (r: string)
    ensures r != "" ==> obj.CellRef? && r == obj.refCell
  {
    GetSName("", obj)
  }

  /** An element before position (i, j) of the cell/element iteration references `name`. */
  ghost predicate ReferencedBefore(cells: seq<GdsCell>, name: string, i: nat, j: nat)
  {
    exists a, b :: 0 <= a < |cells| && 0 <= b < |cells[a].objects| && (a < i || (a == i && b < j)) &&
      RefName(cells[a].objects[b]) == name
  }

  /** Some element of some cell references `name`. */
  ghost predicate Referenced(cells: seq<GdsCell>, name: string)
  {
    ReferencedBefore(cells, name, |cells|, 0)
  }

  /** A cell that may be the top cell: named, present, and referenced by no element. */
  ghost predicate IsCandidate(cells: seq<GdsCell>, name: string)
  {
    name != "" && HasCell(cells, name) && !Referenced(cells, name)
  }

  // ---------------------------------------------------------------------------
  // Key order of std::map<std::string, bool>
  // ---------------------------------------------------------------------------

  /** `std::string` less-than: lexicographic by character, a proper prefix first. */
  predicate StrLess(a: string, b: string)
  {
    if a == [] then b != []
    else if b == [] then false
    else if a[0] != b[0] then a[0] < b[0]
    else StrLess(a[1..], b[1..])
  }

  /** `StrLess` is a strict total order. */
  lemma {:induction false} StrLessStrictTotal(a: string, b: string)
    ensures !StrLess(a, a)
    ensures StrLess(a, b) ==> !StrLess(b, a)
    ensures a != b ==> StrLess(a, b) || StrLess(b, a)
  {
    if a != [] {
      StrLessStrictTotal(a[1..], a[1..]);
      if b != [] && a[0] == b[0] {
        StrLessStrictTotal(a[1..], b[1..]);
        if a != b {
          assert a == [a[0]] + a[1..] && b == [b[0]] + b[1..];
        }
      }
    }
  }

  /** `StrLess` is transitive. */
  lemma {:induction false} StrLessTransitive(a: string, b: string, c: string)
    requires StrLess(a, b) && StrLess(b, c)
    ensures StrLess(a, c)
  {
    if a != [] && b != [] && c != [] && a[0] == b[0] && b[0] == c[0] {
      StrLessTransitive(a[1..], b[1..], c[1..]);
    }
  }

  /** Every non-empty set of strings has a least element, the first one `std::map` iterates. */
  lemma {:induction false} LeastExists(s: set<string>) returns (m: string)
    requires s != {}
    ensures m in s && forall k :: k in s ==> k == m || StrLess(m, k)
    decreases s
  {
    var x :| x in s;
    if s == {x} {
      m := x;
    } else {
      var m' := LeastExists(s - {x});
      StrLessStrictTotal(x, m');
      if StrLess(x, m') {
        m := x;
        forall k | k in s && k != m
          ensures StrLess(m, k)
        {
          if k != m' {
            StrLessTransitive(x, m', k);
          }
        }
      } else {
        m := m';
      }
    }
  }

  /** Two least elements of the same set are equal. */
  lemma {:induction false} LeastUnique(s: set<string>, m1: string, m2: string)
    requires m1 in s && forall k :: k in s ==> k == m1 || StrLess(m1, k)
    requires m2 in s && forall k :: k in s ==> k == m2 || StrLess(m2, k)
    ensures m1 == m2
  {
    StrLessStrictTotal(m1, m2);
  }

  // ---------------------------------------------------------------------------
  // topCell
  // ---------------------------------------------------------------------------

  /**
   * `topCell(db)`: record every cell name as not found, mark every name a
   * cell reference mentions as found, then return the first key, in key
   * order, that is non-empty and not found.  When no cell with a non-empty
   * name is unreferenced, `AssertMsg` reports it and the empty string is returned.
   */
  method TopCell(cells: seq<GdsCell>) returns (top: string)
    ensures top != "" ==> IsCandidate(cells, top)
    ensures top != "" ==> forall c :: IsCandidate(cells, c) ==> c == top || StrLess(top, c)
    ensures top == "" ==> forall c :: !IsCandidate(cells, c)
  {
    var nameFound := RecordCellNames(cells);
    nameFound := MarkReferencedNames(cells, nameFound);
    top := FirstUnreferenced(cells, nameFound);
  }

  /** The first loop of `topCell`: every cell name, marked not found. */
  method RecordCellNames(cells: seq<GdsCell>) returns (nameFound: map<string, bool>)
    ensures forall k :: k in nameFound <==> HasCell(cells, k)
    ensures forall k :: k in nameFound ==> !nameFound[k]
  {
    nameFound := map[];
    var idx: int := |cells| - 1;
    while idx >= 0
      invariant -1 <= idx < |cells|
      invariant forall k :: k in nameFound <==> exists i :: idx < i < |cells| && cells[i].name == k
      invariant forall k :: k in nameFound ==> !nameFound[k]
    {
      nameFound := nameFound[cells[idx].name := false];
      idx := idx - 1;
    }
  }

  /** The names recorded once the elements before position (i, j) have been visited. */
  ghost predicate MarkedBefore(cells: seq<GdsCell>, nameFound: map<string, bool>, i: nat, j: nat)
  {
    (forall k :: k in nameFound <==> HasCell(cells, k) || (k != "" && ReferencedBefore(cells, k, i, j))) &&
    (forall k :: k in nameFound ==> (nameFound[k] <==> k != "" && ReferencedBefore(cells, k, i, j)))
  }

  /** The second loop of `topCell`: every name a cell reference mentions is marked found. */
  method MarkReferencedNames(cells: seq<GdsCell>, nameFound0: map<string, bool>) returns (nameFound: map<string, bool>)
    requires forall k :: k in nameFound0 <==> HasCell(cells, k)
    requires forall k :: k in nameFound0 ==> !nameFound0[k]
    ensures MarkedBefore(cells, nameFound, |cells|, 0)
  {
    nameFound := nameFound0;
    for i := 0 to |cells|
      invariant MarkedBefore(cells, nameFound, i, 0)
    {
      nameFound := MarkCellReferences(cells, i, nameFound);
      forall k | ReferencedBefore(cells, k, i + 1, 0)
        ensures ReferencedBefore(cells, k, i, |cells[i].objects|)
      {
        var a, b :| 0 <= a < |cells| && 0 <= b < |cells[a].objects| && (a < i + 1 || (a == i + 1 && b < 0)) &&
          RefName(cells[a].objects[b]) == k;
      }
      forall k | ReferencedBefore(cells, k, i, |cells[i].objects|)
        ensures ReferencedBefore(cells, k, i + 1, 0)
      {
        var a, b :| 0 <= a < |cells| && 0 <= b < |cells[a].objects| && (a < i || (a == i && b < |cells[i].objects|)) &&
          RefName(cells[a].objects[b]) == k;
      }
    }
  }

  /** The inner loop of the second loop: the names referenced from cell `i`. */
  method MarkCellReferences(cells: seq<GdsCell>, i: nat, nameFound0: map<string, bool>) returns (nameFound: map<string, bool>)
    requires i < |cells| && MarkedBefore(cells, nameFound0, i, 0)
    ensures MarkedBefore(cells, nameFound, i, |cells[i].objects|)
  {
    nameFound := nameFound0;
    var objects := cells[i].objects;
    for j := 0 to |objects|
      invariant MarkedBefore(cells, nameFound, i, j)
    {
      var name := GetSName("", objects[j]);
      if name != "" {
        nameFound := nameFound[name := true];
      }
      forall k | ReferencedBefore(cells, k, i, j + 1)
        ensures ReferencedBefore(cells, k, i, j) || k == name
      {
        var a, b :| 0 <= a < |cells| && 0 <= b < |cells[a].objects| && (a < i || (a == i && b < j + 1)) &&
          RefName(cells[a].objects[b]) == k;
      }
      assert ReferencedBefore(cells, name, i, j + 1) by {
        assert RefName(cells[i].objects[j]) == name;
      }
    }
  }

  /** The last loop of `topCell`: the least key that is non-empty and not found, or "". */
  method FirstUnreferenced(cells: seq<GdsCell>, nameFound: map<string, bool>) returns (top: string)
    requires MarkedBefore(cells, nameFound, |cells|, 0)
    ensures top != "" ==> IsCandidate(cells, top)
    ensures top != "" ==> forall c :: IsCandidate(cells, c) ==> c == top || StrLess(top, c)
    ensures top == "" ==> forall c :: !IsCandidate(cells, c)
  {
    var todo := nameFound.Keys;
    while todo != {}
      invariant todo <= nameFound.Keys
      invariant forall k :: k in nameFound && k !in todo ==> k == "" || nameFound[k]
      invariant forall k, t :: k in nameFound && k !in todo && t in todo ==> StrLess(k, t)
      invariant forall c :: IsCandidate(cells, c) ==> c in nameFound && !nameFound[c]
    {
      ghost var least := LeastExists(todo);
      var k :| k in todo && forall t :: t in todo ==> t == k || StrLess(k, t);
      if k != "" && !nameFound[k] {
        forall c | IsCandidate(cells, c)
          ensures c == k || StrLess(k, c)
        {
          if c !in todo {
            assert false;
          }
        }
        return k;
      }
      todo := todo - {k};
    }
    return "";
  }

  /**
   * Which names are candidates depends only on which cells the database
   * holds, not on their order; with `LeastUnique`, so does `topCell`'s answer.
   */
  lemma {:induction false} CandidatesIgnoreCellOrder(cells: seq<GdsCell>, cells': seq<GdsCell>, name: string)
    requires forall c :: c in cells <==> c in cells'
    ensures IsCandidate(cells, name) <==> IsCandidate(cells', name)
  {
    ReferencedInEither(cells, cells', name);
    ReferencedInEither(cells', cells, name);
    if HasCell(cells, name) {
      var i :| 0 <= i < |cells| && cells[i].name == name;
      assert cells[i] in cells';
    }
    if HasCell(cells', name) {
      var i :| 0 <= i < |cells'| && cells'[i].name == name;
      assert cells'[i] in cells;
    }
  }

  /** A name referenced from the cells of one database is referenced from a database with the same cells. */
  lemma {:induction false} ReferencedInEither(cells: seq<GdsCell>, cells': seq<GdsCell>, name: string)
    requires forall c :: c in cells ==> c in cells'
    ensures Referenced(cells, name) ==> Referenced(cells', name)
  {
    if Referenced(cells, name) {
      var a, b :| 0 <= a < |cells| && 0 <= b < |cells[a].objects| && (a < |cells| || (a == |cells| && b < 0)) &&
        RefName(cells[a].objects[b]) == name;
      assert cells[a] in cells';
      var a' :| 0 <= a' < |cells'| && cells'[a'] == cells[a];
      assert RefName(cells'[a'].objects[b]) == name;
    }
  }

  /** A database whose cells reference each other in a ring has no top cell; a name only referenced is never a candidate. */
  lemma {:induction false} CandidateExamples()
    ensures !IsCandidate([GdsCell("a", [CellRef("b", Geometry.XY(0, 0), 0, 1, 0)]),
                          GdsCell("b", [CellRef("a", Geometry.XY(0, 0), 0, 1, 0)])], "a")
    ensures IsCandidate([GdsCell("top", [CellRef("leaf", Geometry.XY(0, 0), 0, 1, 0)]), GdsCell("leaf", [])], "top")
    ensures !IsCandidate([GdsCell("top", [CellRef("missing", Geometry.XY(0, 0), 0, 1, 0)])], "missing")
  {
    var ring := [GdsCell("a", [CellRef("b", Geometry.XY(0, 0), 0, 1, 0)]),
                 GdsCell("b", [CellRef("a", Geometry.XY(0, 0), 0, 1, 0)])];
    assert RefName(ring[1].objects[0]) == "a";
    var two := [GdsCell("top", [CellRef("leaf", Geometry.XY(0, 0), 0, 1, 0)]), GdsCell("leaf", [])];
    assert two[0].name == "top";
    forall a, b | 0 <= a < |two| && 0 <= b < |two[a].objects|
      ensures RefName(two[a].objects[b]) == "leaf"
    {
    }
    var one := [GdsCell("top", [CellRef("missing", Geometry.XY(0, 0), 0, 1, 0)])];
    forall i | 0 <= i < |one|
      ensures one[i].name == "top"
    {
    }
  }
}
