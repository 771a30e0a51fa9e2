/**
 * writer/GdsWriter.h: the hierarchical GDSII writer.  A circuit of the design
 * database becomes a GDSII cell of the same name holding one boundary per
 * layout rectangle and one text per layout label.  The technology database
 * enters only through its layer map, a parameter of the writer; serialising
 * the GDSII database to a file is not part of this model.
 */
module LayoutWriter {
  import Geometry
  import Hierarchy
  import GdsModel

  /** `std::numeric_limits<int>::max()`. */
  const IntMax: int := 0x7FFF_FFFF

  /** The STRANS reflection bit of a GDSII structure reference (bit 0 of the word, value 0x8000). */
  const ReflectBit: int := 0x8000

  // ---------------------------------------------------------------------------
  // Shapes
  // ---------------------------------------------------------------------------

  /** A corner of `b`. */
  predicate IsCorner(b: Geometry.Box, p: Geometry.XY)
  {
    (p.x == b.XLo() || p.x == b.XHi()) && (p.y == b.YLo() || p.y == b.YHi())
  }

  /**
   * The point list `addRect2Cell` builds: a closed ring through the four
   * corners, lower-left first, turning clockwise.
   */
  function RectPoints(b: Geometry.Box): (pts: seq<Geometry.XY>)
    ensures |pts| == 5 && pts[0] == pts[4] == b.ll
    ensures forall i :: 0 <= i < 5 ==> IsCorner(b, pts[i])
    ensures forall i :: 0 <= i < 4 ==> pts[i].x == pts[i + 1].x || pts[i].y == pts[i + 1].y
    ensures b.HasInterior() ==> forall i, j :: 0 <= i < j < 4 ==> pts[i] != pts[j]
  {
    [Geometry.XY(b.XLo(), b.YLo()), Geometry.XY(b.XLo(), b.YHi()), Geometry.XY(b.XHi(), b.YHi()),
     Geometry.XY(b.XHi(), b.YLo()), Geometry.XY(b.XLo(), b.YLo())]
  }

  /** The boundary `addRect2Cell` adds for a rectangle on database layer `layerIdx`. */
  function RectObject(pdkLayer: nat -> int, layerIdx: nat, r: Hierarchy.LayoutRect): GdsModel.GdsObject
  {
    GdsModel.Polygon(pdkLayer(layerIdx), r.dataType, RectPoints(r.rect))
  }

  /**
   * The text `addText2Cell` adds: datatype and width are `INT_MAX`, so that
   * the GDSII writer skips those records; text type 0, presentation 5,
   * strans 0 and angle 0.
   */
  function TextObject(pdkLayer: nat -> int, layerIdx: nat, t: Hierarchy.LayoutText): GdsModel.GdsObject
  {
    GdsModel.Text(pdkLayer(layerIdx), IntMax, 0, t.text, t.coord, IntMax, 5, 0, 0)
  }

  /**
   * The structure reference `addCellRef2Cell` adds for a node: angle 0,
   * magnification 1, and the reflection bit set for every orientation but N.
   */
  function CellRefObject(node: Hierarchy.CktNode): (o: GdsModel.GdsObject)
    ensures o.CellRef? && o.refCell == node.refName && o.position == node.offset
    ensures o.angle == 0 && o.magnification == 1
    ensures o.strans == 0 <==> node.orient == Hierarchy.N
    ensures o.strans != 0 ==> o.strans == ReflectBit
  {
    var flip := node.orient != Hierarchy.N;
    GdsModel.CellRef(node.refName, node.offset, 0, 1, if flip then 32768 else 0)
  }

  /** The boundaries of some rectangles of layer `layerIdx`, in order. */
  function RectObjects(pdkLayer: nat -> int, layerIdx: nat, rects: seq<Hierarchy.LayoutRect>): seq<GdsModel.GdsObject>
  {
    if rects == [] then []
    else RectObjects(pdkLayer, layerIdx, rects[..|rects| - 1]) + [RectObject(pdkLayer, layerIdx, rects[|rects| - 1])]
  }

  /** The texts of some labels of layer `layerIdx`, in order. */
  function TextObjects(pdkLayer: nat -> int, layerIdx: nat, texts: seq<Hierarchy.LayoutText>): seq<GdsModel.GdsObject>
  {
    if texts == [] then []
    else TextObjects(pdkLayer, layerIdx, texts[..|texts| - 1]) + [TextObject(pdkLayer, layerIdx, texts[|texts| - 1])]
  }

  /** The objects of one layer: its rectangles, then its texts. */
  function LayerObjects(pdkLayer: nat -> int, layerIdx: nat, shapes: Hierarchy.LayerShapes): seq<GdsModel.GdsObject>
  {
    RectObjects(pdkLayer, layerIdx, shapes.rects) + TextObjects(pdkLayer, layerIdx, shapes.texts)
  }

  /** The objects of the first `n` layers, layer by layer in increasing order. */
  function LayersObjects(pdkLayer: nat -> int, layers: seq<Hierarchy.LayerShapes>, n: nat): seq<GdsModel.GdsObject>
    requires n <= |layers|
  {
    if n == 0 then [] else LayersObjects(pdkLayer, layers, n - 1) + LayerObjects(pdkLayer, n - 1, layers[n - 1])
  }

  /** The cell `addCktGraph` builds for a circuit. */
  function CktCell(pdkLayer: nat -> int, ckt: Hierarchy.CktGraph): GdsModel.GdsCell
  {
    GdsModel.GdsCell(ckt.name, LayersObjects(pdkLayer, ckt.layout.layers, |ckt.layout.layers|))
  }

  /** The number of rectangles, and of texts, in the first `n` layers. */
  function NumRects(layers: seq<Hierarchy.LayerShapes>, n: nat): nat
    requires n <= |layers|
  {
    if n == 0 then 0 else NumRects(layers, n - 1) + |layers[n - 1].rects|
  }

  function NumTexts(layers: seq<Hierarchy.LayerShapes>, n: nat): nat
    requires n <= |layers|
  {
    if n == 0 then 0 else NumTexts(layers, n - 1) + |layers[n - 1].texts|
  }

  /** The number of boundaries, and of texts, among some objects. */
  function NumPolygons(objs: seq<GdsModel.GdsObject>): nat
  {
    if objs == [] then 0 else NumPolygons(objs[..|objs| - 1]) + (if objs[|objs| - 1].Polygon? then 1 else 0)
  }

  function NumTextObjects(objs: seq<GdsModel.GdsObject>): nat
  {
    if objs == [] then 0 else NumTextObjects(objs[..|objs| - 1]) + (if objs[|objs| - 1].Text? then 1 else 0)
  }

  lemma {:induction false} CountsOfConcat(a: seq<GdsModel.GdsObject>, b: seq<GdsModel.GdsObject>)
    ensures NumPolygons(a + b) == NumPolygons(a) + NumPolygons(b)
    ensures NumTextObjects(a + b) == NumTextObjects(a) + NumTextObjects(b)
    decreases |b|
  {
    if b != [] {
      assert (a + b)[..|a + b| - 1] == a + b[..|b| - 1];
      CountsOfConcat(a, b[..|b| - 1]);
    } else {
      assert a + b == a;
    }
  }

  /** One boundary per rectangle, in the rectangles' order, each carrying the rectangle's datatype. */
  lemma {:induction false} RectObjectsContents(pdkLayer: nat -> int, layerIdx: nat, rects: seq<Hierarchy.LayoutRect>)
    ensures |RectObjects(pdkLayer, layerIdx, rects)| == |rects|
    ensures forall i :: 0 <= i < |rects| ==>
      RectObjects(pdkLayer, layerIdx, rects)[i] == GdsModel.Polygon(pdkLayer(layerIdx), rects[i].dataType, RectPoints(rects[i].rect))
    ensures NumPolygons(RectObjects(pdkLayer, layerIdx, rects)) == |rects|
    ensures NumTextObjects(RectObjects(pdkLayer, layerIdx, rects)) == 0
  {
    if rects != [] {
      RectObjectsContents(pdkLayer, layerIdx, rects[..|rects| - 1]);
    }
  }

  /** One text per label, in the labels' order, each with `INT_MAX` as datatype and width. */
  lemma {:induction false} TextObjectsContents(pdkLayer: nat -> int, layerIdx: nat, texts: seq<Hierarchy.LayoutText>)
    ensures |TextObjects(pdkLayer, layerIdx, texts)| == |texts|
    ensures forall i :: 0 <= i < |texts| ==>
      TextObjects(pdkLayer, layerIdx, texts)[i] == GdsModel.Text(pdkLayer(layerIdx), IntMax, 0, texts[i].text, texts[i].coord, IntMax, 5, 0, 0)
    ensures NumTextObjects(TextObjects(pdkLayer, layerIdx, texts)) == |texts|
    ensures NumPolygons(TextObjects(pdkLayer, layerIdx, texts)) == 0
  {
    if texts != [] {
      TextObjectsContents(pdkLayer, layerIdx, texts[..|texts| - 1]);
    }
  }

  /** The boundaries of some rectangles are boundaries, and the texts of some labels are texts. */
  lemma {:induction false} ObjectKinds(pdkLayer: nat -> int, layerIdx: nat, rects: seq<Hierarchy.LayoutRect>, texts: seq<Hierarchy.LayoutText>)
    ensures forall o :: o in RectObjects(pdkLayer, layerIdx, rects) ==> o.Polygon?
    ensures forall o :: o in TextObjects(pdkLayer, layerIdx, texts) ==> o.Text?
    decreases |rects| + |texts|
  {
    if rects != [] {
      ObjectKinds(pdkLayer, layerIdx, rects[..|rects| - 1], []);
    }
    if texts != [] {
      ObjectKinds(pdkLayer, layerIdx, [], texts[..|texts| - 1]);
    }
  }

  /** The objects of one layer: as many boundaries as rectangles and as many texts as labels. */
  lemma {:induction false} LayerCounts(pdkLayer: nat -> int, layerIdx: nat, shapes: Hierarchy.LayerShapes)
    ensures NumPolygons(LayerObjects(pdkLayer, layerIdx, shapes)) == |shapes.rects|
    ensures NumTextObjects(LayerObjects(pdkLayer, layerIdx, shapes)) == |shapes.texts|
  {
    RectObjectsContents(pdkLayer, layerIdx, shapes.rects);
    TextObjectsContents(pdkLayer, layerIdx, shapes.texts);
    CountsOfConcat(RectObjects(pdkLayer, layerIdx, shapes.rects), TextObjects(pdkLayer, layerIdx, shapes.texts));
  }

  /** A circuit's cell holds one boundary per layout rectangle. */
  lemma {:induction false} LayersPolygonCount(pdkLayer: nat -> int, layers: seq<Hierarchy.LayerShapes>, n: nat)
    requires n <= |layers|
    ensures NumPolygons(LayersObjects(pdkLayer, layers, n)) == NumRects(layers, n)
  {
    if n > 0 {
      LayersPolygonCount(pdkLayer, layers, n - 1);
      LayerCounts(pdkLayer, n - 1, layers[n - 1]);
      CountsOfConcat(LayersObjects(pdkLayer, layers, n - 1), LayerObjects(pdkLayer, n - 1, layers[n - 1]));
    }
  }

  /** A circuit's cell holds one text per layout label. */
  lemma {:induction false} LayersTextCount(pdkLayer: nat -> int, layers: seq<Hierarchy.LayerShapes>, n: nat)
    requires n <= |layers|
    ensures NumTextObjects(LayersObjects(pdkLayer, layers, n)) == NumTexts(layers, n)
  {
    if n > 0 {
      LayersTextCount(pdkLayer, layers, n - 1);
      LayerCounts(pdkLayer, n - 1, layers[n - 1]);
      CountsOfConcat(LayersObjects(pdkLayer, layers, n - 1), LayerObjects(pdkLayer, n - 1, layers[n - 1]));
    }
  }

  /**
   * A circuit's cell holds boundaries and texts only, no structure reference:
   * instances of sub circuits are not emitted.
   */
  lemma {:induction false} LayersObjectsKinds(pdkLayer: nat -> int, layers: seq<Hierarchy.LayerShapes>, n: nat)
    requires n <= |layers|
    ensures forall o :: o in LayersObjects(pdkLayer, layers, n) ==> o.Polygon? || o.Text?
  {
    if n > 0 {
      LayersObjectsKinds(pdkLayer, layers, n - 1);
      ObjectKinds(pdkLayer, n - 1, layers[n - 1].rects, layers[n - 1].texts);
      var prev := LayersObjects(pdkLayer, layers, n - 1);
      var rs := RectObjects(pdkLayer, n - 1, layers[n - 1].rects);
      var ts := TextObjects(pdkLayer, n - 1, layers[n - 1].texts);
      assert LayersObjects(pdkLayer, layers, n) == prev + (rs + ts);
    }
  }

  // ---------------------------------------------------------------------------
  // The writer
  // ---------------------------------------------------------------------------

  /** `GdsWriter`: the design database, the layer map of the technology database, and the GDSII cells built so far. */
  class GdsWriter {
    const ckts: seq<Hierarchy.CktGraph>
    const pdkLayer: nat -> int
    var cells: seq<GdsModel.GdsCell>

    constructor (ckts: seq<Hierarchy.CktGraph>, pdkLayer: nat -> int)
      ensures this.ckts == ckts && this.pdkLayer == pdkLayer && cells == []
    {
      this.ckts := ckts;
      this.pdkLayer := pdkLayer;
      cells := [];
    }

    /** `addRect2Cell(cell, rect, dbLayer, datatype)`: appends the rectangle's boundary to cell `cellIdx`. */
    method AddRect2Cell(cellIdx: nat, rect: Hierarchy.LayoutRect, dbLayer: nat)
      requires cellIdx < |cells|
      modifies this
      ensures cells == old(cells)[cellIdx := old(cells)[cellIdx].(objects := old(cells)[cellIdx].objects + [RectObject(pdkLayer, dbLayer, rect)])]
    {
      var layer := pdkLayer(dbLayer);
      var pts := [Geometry.XY(rect.rect.XLo(), rect.rect.YLo()), Geometry.XY(rect.rect.XLo(), rect.rect.YHi()),
                  Geometry.XY(rect.rect.XHi(), rect.rect.YHi()), Geometry.XY(rect.rect.XHi(), rect.rect.YLo()),
                  Geometry.XY(rect.rect.XLo(), rect.rect.YLo())];
      var cell := cells[cellIdx];
      cells := cells[cellIdx := cell.(objects := cell.objects + [GdsModel.Polygon(layer, rect.dataType, pts)])];
    }

    /** `addText2Cell(cell, coord, dbLayer, str)`: appends the label to cell `cellIdx`. */
    method AddText2Cell(cellIdx: nat, text: Hierarchy.LayoutText, dbLayer: nat)
      requires cellIdx < |cells|
      modifies this
      ensures cells == old(cells)[cellIdx := old(cells)[cellIdx].(objects := old(cells)[cellIdx].objects + [TextObject(pdkLayer, dbLayer, text)])]
    {
      var layer := pdkLayer(dbLayer);
      var cell := cells[cellIdx];
      cells := cells[cellIdx := cell.(objects := cell.objects + [GdsModel.Text(layer, IntMax, 0, text.text, text.coord, IntMax, 5, 0, 0)])];
    }

    /** `addCellRef2Cell(cell, node)`: appends a reference to the node's circuit to cell `cellIdx`. */
    method AddCellRef2Cell(cellIdx: nat, node: Hierarchy.CktNode)
      requires cellIdx < |cells|
      modifies this
      ensures cells == old(cells)[cellIdx := old(cells)[cellIdx].(objects := old(cells)[cellIdx].objects + [CellRefObject(node)])]
    {
      var angle := 0;
      var flip := false;
      if node.orient == Hierarchy.N {
        angle := 0;
        flip := false;
      } else {
        angle := 0;
        flip := true;
      }
      var strans;
      if flip {
        strans := 32768;
      } else {
        strans := 0;
      }
      var cell := cells[cellIdx];
      cells := cells[cellIdx := cell.(objects := cell.objects + [GdsModel.CellRef(node.refName, node.offset, angle, 1, strans)])];
    }

    /** The rectangle loop of `addCktGraph`: the boundaries of one layer's rectangles, appended in order. */
    method AddLayerRects(cellIdx: nat, rects: seq<Hierarchy.LayoutRect>, layerIdx: nat)
      requires cellIdx < |cells|
      modifies this
      ensures cells == old(cells)[cellIdx := old(cells)[cellIdx].(objects := old(cells)[cellIdx].objects + RectObjects(pdkLayer, layerIdx, rects))]
    {
      ghost var start := cells[cellIdx];
      assert rects[..0] == [] && start.objects + [] == start.objects;
      for rectIdx := 0 to |rects|
        invariant cells == old(cells)[cellIdx := start.(objects := start.objects + RectObjects(pdkLayer, layerIdx, rects[..rectIdx]))]
      {
        ghost var done := start.objects + RectObjects(pdkLayer, layerIdx, rects[..rectIdx]);
        AddRect2Cell(cellIdx, rects[rectIdx], layerIdx);
        assert rects[..rectIdx + 1][..rectIdx] == rects[..rectIdx];
        assert done + [RectObject(pdkLayer, layerIdx, rects[rectIdx])] ==
          start.objects + RectObjects(pdkLayer, layerIdx, rects[..rectIdx + 1]);
      }
      assert rects[..|rects|] == rects;
    }

    /** The label loop of `addCktGraph`: the texts of one layer's labels, appended in order. */
    method AddLayerTexts(cellIdx: nat, texts: seq<Hierarchy.LayoutText>, layerIdx: nat)
      requires cellIdx < |cells|
      modifies this
      ensures cells == old(cells)[cellIdx := old(cells)[cellIdx].(objects := old(cells)[cellIdx].objects + TextObjects(pdkLayer, layerIdx, texts))]
    {
      ghost var start := cells[cellIdx];
      assert texts[..0] == [] && start.objects + [] == start.objects;
      for textIdx := 0 to |texts|
        invariant cells == old(cells)[cellIdx := start.(objects := start.objects + TextObjects(pdkLayer, layerIdx, texts[..textIdx]))]
      {
        ghost var done := start.objects + TextObjects(pdkLayer, layerIdx, texts[..textIdx]);
        AddText2Cell(cellIdx, texts[textIdx], layerIdx);
        assert texts[..textIdx + 1][..textIdx] == texts[..textIdx];
        assert done + [TextObject(pdkLayer, layerIdx, texts[textIdx])] ==
          start.objects + TextObjects(pdkLayer, layerIdx, texts[..textIdx + 1]);
      }
      assert texts[..|texts|] == texts;
    }

    /** One pass of the layer loop of `addCktGraph`: the layer's boundaries, then its texts. */
    method AddLayer(cellIdx: nat, shapes: Hierarchy.LayerShapes, layerIdx: nat)
      requires cellIdx < |cells|
      modifies this
      ensures cells == old(cells)[cellIdx := old(cells)[cellIdx].(objects := old(cells)[cellIdx].objects + LayerObjects(pdkLayer, layerIdx, shapes))]
    {
      ghost var start := cells[cellIdx];
      AddLayerRects(cellIdx, shapes.rects, layerIdx);
      AddLayerTexts(cellIdx, shapes.texts, layerIdx);
      assert (start.objects + RectObjects(pdkLayer, layerIdx, shapes.rects)) + TextObjects(pdkLayer, layerIdx, shapes.texts) ==
        start.objects + LayerObjects(pdkLayer, layerIdx, shapes);
    }

    /**
     * `addCktGraph(cktGraphIdx)`: nothing happens when a cell of the circuit's
     * name exists; otherwise exactly one cell, named after the circuit and
     * holding its layout, is added.  The loop over non-leaf nodes has its
     * recursive emission and reference insertion commented out, so no other
     * cell and no reference is added.
     */
    method AddCktGraph(cktGraphIdx: nat)
      requires cktGraphIdx < |ckts|
      modifies this
      ensures GdsModel.HasCell(old(cells), ckts[cktGraphIdx].name) ==> cells == old(cells)
      ensures !GdsModel.HasCell(old(cells), ckts[cktGraphIdx].name) ==> cells == old(cells) + [CktCell(pdkLayer, ckts[cktGraphIdx])]
      ensures GdsModel.HasCell(cells, ckts[cktGraphIdx].name)
    {
      var cktGraph := ckts[cktGraphIdx];
      if GdsModel.HasCell(cells, cktGraph.name) {
        return;
      }
      cells := cells + [GdsModel.GdsCell(cktGraph.name, [])];
      var cellIdx := |cells| - 1;
      var layers := cktGraph.layout.layers;
      for layerIdx := 0 to |layers|
        invariant cells == old(cells) + [GdsModel.GdsCell(cktGraph.name, LayersObjects(pdkLayer, layers, layerIdx))]
      {
        AddLayer(cellIdx, layers[layerIdx], layerIdx);
        assert LayersObjects(pdkLayer, layers, layerIdx) + LayerObjects(pdkLayer, layerIdx, layers[layerIdx]) ==
          LayersObjects(pdkLayer, layers, layerIdx + 1);
      }
      assert cells[cellIdx].name == cktGraph.name;
    }

    /**
     * `writeGdsLayout(cktIdx, filename)`: clears every cell, then adds the
     * circuit, so the database holds exactly the circuit's cell.  Units,
     * precision, header and the file itself are not part of this model.
     */
    method WriteGdsLayout(cktIdx: nat)
      requires cktIdx < |ckts|
      modifies this
      ensures cells == [CktCell(pdkLayer, ckts[cktIdx])]
    {
      cells := [];
      AddCktGraph(cktIdx);
    }
  }

  /**
   * A written layout holds exactly the requested circuit's cell: one
   * boundary per rectangle, one text per label and no reference, whatever
   * the circuit's nodes are.
   */
  lemma {:induction false} WrittenLayoutContents(pdkLayer: nat -> int, ckt: Hierarchy.CktGraph)
    ensures CktCell(pdkLayer, ckt).name == ckt.name
    ensures NumPolygons(CktCell(pdkLayer, ckt).objects) == NumRects(ckt.layout.layers, |ckt.layout.layers|)
    ensures NumTextObjects(CktCell(pdkLayer, ckt).objects) == NumTexts(ckt.layout.layers, |ckt.layout.layers|)
    ensures forall o :: o in CktCell(pdkLayer, ckt).objects ==> !o.CellRef?
  {
    LayersPolygonCount(pdkLayer, ckt.layout.layers, |ckt.layout.layers|);
    LayersTextCount(pdkLayer, ckt.layout.layers, |ckt.layout.layers|);
    LayersObjectsKinds(pdkLayer, ckt.layout.layers, |ckt.layout.layers|);
  }

  /** A written cell references nothing, so `topCell` of a written layout is that cell whenever its name is not empty. */
  lemma {:induction false} WrittenCellIsUnreferenced(pdkLayer: nat -> int, ckt: Hierarchy.CktGraph)
    ensures forall name :: name != "" ==> !GdsModel.Referenced([CktCell(pdkLayer, ckt)], name)
    ensures ckt.name != "" ==> GdsModel.IsCandidate([CktCell(pdkLayer, ckt)], ckt.name)
  {
    var cells := [CktCell(pdkLayer, ckt)];
    LayersObjectsKinds(pdkLayer, ckt.layout.layers, |ckt.layout.layers|);
    forall a, b | 0 <= a < |cells| && 0 <= b < |cells[a].objects|
      ensures GdsModel.RefName(cells[a].objects[b]) == ""
    {
      assert a == 0 && cells[a].objects[b] in CktCell(pdkLayer, ckt).objects;
    }
    assert cells[0].name == ckt.name;
  }
}
