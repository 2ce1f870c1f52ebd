/**
 Geometry of the flowchart (drawGraph in packages/paseo-adapter/src/flowchart-ui.ts): columns, node
 rectangles and the view box. Coordinates are reals.
 */
module Layout {
  import opened Common
  import opened Layering
  import Sorting

  const NODE_WIDTH := 232.0
  const NODE_HEIGHT := 128.0
  const COLUMN_GAP := 156.0
  const ROW_GAP := 76.0
  const PAD_X := 64.0
  const PAD_Y := 62.0

  datatype Point = Point(x: real, y: real)

  datatype Rect = Rect(x: real, y: real, w: real, h: real)

  predicate Overlap(a: Rect, b: Rect) {
    a.x < b.x + b.w && b.x < a.x + a.w && a.y < b.y + b.h && b.y < a.y + a.h
  }

  function MaxReal(a: real, b: real): real {
    if a <= b then b else a
  }

  function MinReal(a: real, b: real): real {
    if a <= b then a else b
  }

  // ----- Columns -----

  datatype Column = Column(depth: nat, ids: seq<string>)

  function AtDepth(depths: Depths, k: nat): string -> bool {
    id => Depth(depths, id) == k
  }

  /** The nodes of each depth that occurs, in node order, by increasing depth. */
  ghost predicate ColumnsOf(nodes: seq<string>, depths: Depths, columns: seq<Column>) {
    && (forall i, j :: 0 <= i < j < |columns| ==> columns[i].depth < columns[j].depth)
    && (forall i :: 0 <= i < |columns| ==>
        columns[i].ids != [] && columns[i].ids == Filter(AtDepth(depths, columns[i].depth), nodes))
    && (forall id :: id in nodes ==> exists i :: 0 <= i < |columns| && columns[i].depth == Depth(depths, id))
  }

  ghost predicate LayersOf(nodes: seq<string>, depths: Depths, layers: map<nat, seq<string>>) {
    && (forall k :: k in layers ==> layers[k] != [] && layers[k] == Filter(AtDepth(depths, k), nodes))
    && (forall id :: id in nodes ==> Depth(depths, id) in layers)
  }

  lemma LayersNext(nodes: seq<string>, depths: Depths, layers: map<nat, seq<string>>, id: string)
    requires LayersOf(nodes, depths, layers)
    ensures var k := Depth(depths, id);
            LayersOf(nodes + [id], depths, layers[k := (if k in layers then layers[k] else []) + [id]])
  {
    var k := Depth(depths, id);
    assert (nodes + [id])[..|nodes|] == nodes;
    if k !in layers { NoneAtDepth(nodes, depths, layers, k); }
  }

  lemma {:induction false} NoneAtDepth(nodes: seq<string>, depths: Depths, layers: map<nat, seq<string>>, k: nat)
    requires k !in layers && forall id :: id in nodes ==> Depth(depths, id) in layers
    ensures Filter(AtDepth(depths, k), nodes) == []
  {
    if nodes != [] {
      NoneAtDepth(nodes[..|nodes| - 1], depths, layers, k);
      assert nodes[|nodes| - 1] in nodes;
    }
  }

  function Ascending(): (nat, nat) -> bool {
    (a, b) => a <= b
  }

  /** The layers map, filled in node order, with its keys in order of first use. */
  method CollectLayers(nodes: seq<string>, depths: Depths) returns (layers: map<nat, seq<string>>, keys: seq<nat>)
    ensures LayersOf(nodes, depths, layers)
    ensures NoRepeats(keys) && forall k :: k in keys <==> k in layers
  {
    layers, keys := map[], [];
    for i := 0 to |nodes|
      invariant LayersOf(nodes[..i], depths, layers)
      invariant NoRepeats(keys) && forall k :: k in keys <==> k in layers
    {
      var depth := Depth(depths, nodes[i]);
      LayersNext(nodes[..i], depths, layers, nodes[i]);
      assert nodes[..i + 1] == nodes[..i] + [nodes[i]];
      var column := if depth in layers then layers[depth] else [];
      if depth !in layers { keys := keys + [depth]; }
      layers := layers[depth := column + [nodes[i]]];
    }
    assert nodes[..|nodes|] == nodes;
  }

  /** The entries of the layers map, sorted by depth. */
  method BuildColumns(nodes: seq<string>, depths: Depths) returns (columns: seq<Column>)
    ensures ColumnsOf(nodes, depths, columns)
  {
    var layers, keys := CollectLayers(nodes, depths);
    var sorted := Sorting.Sort(Ascending(), keys);
    SortedKeys(keys);
    columns := seq(|sorted|,
        i requires 0 <= i < |sorted| => Column(sorted[i], if sorted[i] in layers then layers[sorted[i]] else []));
    SortedColumns(nodes, depths, layers, sorted, columns);
  }

  lemma SortedColumns(nodes: seq<string>, depths: Depths, layers: map<nat, seq<string>>, sorted: seq<nat>,
                      columns: seq<Column>)
    requires LayersOf(nodes, depths, layers) && forall k :: k in sorted <==> k in layers
    requires forall i, j :: 0 <= i < j < |sorted| ==> sorted[i] < sorted[j]
    requires |columns| == |sorted| && forall i :: 0 <= i < |sorted| ==>
               sorted[i] in layers && columns[i] == Column(sorted[i], layers[sorted[i]])
    ensures ColumnsOf(nodes, depths, columns)
  {
    forall id | id in nodes ensures exists i :: 0 <= i < |columns| && columns[i].depth == Depth(depths, id) {
      assert Depth(depths, id) in sorted;
      var i :| 0 <= i < |sorted| && sorted[i] == Depth(depths, id);
      assert columns[i].depth == Depth(depths, id);
    }
  }

  lemma SortedKeys(keys: seq<nat>)
    requires NoRepeats(keys)
    ensures var sorted := Sorting.Sort(Ascending(), keys);
            && (forall k :: k in sorted <==> k in keys)
            && (forall i, j :: 0 <= i < j < |sorted| ==> sorted[i] < sorted[j])
  {
    var sorted := Sorting.Sort(Ascending(), keys);
    Sorting.SortMultiset(Ascending(), keys);
    Sorting.SortSorted(Ascending(), keys);
    forall k ensures k in sorted <==> k in keys {
      assert k in sorted <==> k in multiset(sorted);
      assert k in keys <==> k in multiset(keys);
    }
    NoRepeatsByContents(keys, sorted);
    forall i, j | 0 <= i < j < |sorted| ensures sorted[i] < sorted[j] {
      assert Ascending()(sorted[i], sorted[j]);
    }
  }

  // ----- Positions -----

  function LargestColumn(columns: seq<Column>): nat {
    if columns == [] then 0 else Max(LargestColumn(columns[..|columns| - 1]), |columns[|columns| - 1].ids|)
  }

  function StackHeight(n: nat): real {
    n as real * NODE_HEIGHT + Max(0, n - 1) as real * ROW_GAP
  }

  function ViewWidth(columns: seq<Column>): real {
    MaxReal(700.0, PAD_X * 2.0 + |columns| as real * NODE_WIDTH + Max(0, |columns| - 1) as real * COLUMN_GAP)
  }

  function ViewHeight(columns: seq<Column>): real {
    MaxReal(460.0, PAD_Y * 2.0 + StackHeight(LargestColumn(columns)) + 110.0)
  }

  /** Where row j of column i goes: columns side by side, each centred vertically. */
  function PointAt(columns: seq<Column>, i: nat, j: nat): Point
    requires i < |columns| && j < |columns[i].ids|
  {
    var top := PAD_Y + (StackHeight(LargestColumn(columns)) - StackHeight(|columns[i].ids|)) / 2.0;
    Point(PAD_X + i as real * (NODE_WIDTH + COLUMN_GAP), top + j as real * (NODE_HEIGHT + ROW_GAP))
  }

  predicate Slot(columns: seq<Column>, i: int, j: int) {
    0 <= i < |columns| && 0 <= j < |columns[i].ids|
  }

  ghost predicate DistinctIds(columns: seq<Column>) {
    forall i, j, k, l :: Slot(columns, i, j) && Slot(columns, k, l) && columns[i].ids[j] == columns[k].ids[l] ==>
        i == k && j == l
  }

  method PlaceNodes(columns: seq<Column>) returns (positions: map<string, Point>)
    requires DistinctIds(columns)
    ensures forall i, j :: 0 <= i < |columns| && 0 <= j < |columns[i].ids| ==>
              columns[i].ids[j] in positions && positions[columns[i].ids[j]] == PointAt(columns, i, j)
  {
    positions := map[];
    var columnHeight := StackHeight(LargestColumn(columns));
    for i := 0 to |columns|
      invariant forall i', j :: 0 <= i' < i && 0 <= j < |columns[i'].ids| ==>
                  columns[i'].ids[j] in positions && positions[columns[i'].ids[j]] == PointAt(columns, i', j)
    {
      var top := PAD_Y + (columnHeight - StackHeight(|columns[i].ids|)) / 2.0;
      for j := 0 to |columns[i].ids|
        invariant forall i', j' :: 0 <= i' <= i && 0 <= j' < |columns[i'].ids| && (i' < i || j' < j) ==>
                    columns[i'].ids[j'] in positions && positions[columns[i'].ids[j']] == PointAt(columns, i', j')
      {
        positions := positions[columns[i].ids[j] :=
          Point(PAD_X + i as real * (NODE_WIDTH + COLUMN_GAP), top + j as real * (NODE_HEIGHT + ROW_GAP))];
      }
    }
  }

  lemma ColumnsDistinct(nodes: seq<string>, depths: Depths, columns: seq<Column>)
    requires NoRepeats(nodes) && ColumnsOf(nodes, depths, columns)
    ensures DistinctIds(columns)
  {
    forall i, j, k, l | Slot(columns, i, j) && Slot(columns, k, l) && columns[i].ids[j] == columns[k].ids[l]
        ensures i == k && j == l {
      FilterNoRepeats(AtDepth(depths, columns[i].depth), nodes);
      FilterNoRepeats(AtDepth(depths, columns[k].depth), nodes);
      assert columns[i].ids[j] in columns[i].ids && columns[k].ids[l] in columns[k].ids;
    }
  }

  /** Every node has a place: the column of its depth and a row in it. */
  lemma NodeHasPlace(nodes: seq<string>, depths: Depths, columns: seq<Column>, id: string) returns (i: nat, j: nat)
    requires NoRepeats(nodes) && ColumnsOf(nodes, depths, columns) && id in nodes
    ensures i < |columns| && j < |columns[i].ids| && columns[i].ids[j] == id && columns[i].depth == Depth(depths, id)
  {
    var k :| 0 <= k < |columns| && columns[k].depth == Depth(depths, id);
    FilterNoRepeats(AtDepth(depths, columns[k].depth), nodes);
    assert id in columns[k].ids;
    i := k;
    j :| 0 <= j < |columns[i].ids| && columns[i].ids[j] == id;
  }

  function NodeRect(p: Point): Rect {
    Rect(p.x, p.y, NODE_WIDTH, NODE_HEIGHT)
  }

  lemma {:induction false} LargestIsLargest(columns: seq<Column>, i: nat)
    requires i < |columns|
    ensures |columns[i].ids| <= LargestColumn(columns)
  {
    if i < |columns| - 1 {
      LargestIsLargest(columns[..|columns| - 1], i);
    }
  }

  lemma RowsApart(j: nat, j': nat, step: real)
    requires j < j' && step > 0.0
    ensures j as real * step + step <= j' as real * step
  {
    assert (j' - j) as real * step >= 1.0 * step;
    assert j' as real * step == j as real * step + (j' - j) as real * step;
  }

  /** Every node lies inside the view box, with the padding kept on the left and at the top. */
  lemma PlacesInside(columns: seq<Column>, i: nat, j: nat)
    requires i < |columns| && j < |columns[i].ids|
    ensures var r := NodeRect(PointAt(columns, i, j));
            PAD_X <= r.x && r.x + r.w <= ViewWidth(columns) && PAD_Y <= r.y && r.y + r.h <= ViewHeight(columns)
  {
    LargestIsLargest(columns, i);
  }

  /**
   For any graph: the node rectangles are pairwise disjoint and lie inside the view box, and a
   node of smaller depth lies strictly to the left of a node of greater depth.
   */
  lemma NodesAreLaidOut(nodes: seq<string>, depths: Depths, columns: seq<Column>, positions: map<string, Point>,
                        a: string, b: string)
    requires NoRepeats(nodes) && ColumnsOf(nodes, depths, columns) && a in nodes && b in nodes
    requires forall i, j :: 0 <= i < |columns| && 0 <= j < |columns[i].ids| ==>
               columns[i].ids[j] in positions && positions[columns[i].ids[j]] == PointAt(columns, i, j)
    ensures a in positions && b in positions
    ensures a != b ==> !Overlap(NodeRect(positions[a]), NodeRect(positions[b]))
    ensures 0.0 <= positions[a].x && positions[a].x + NODE_WIDTH <= ViewWidth(columns)
    ensures 0.0 <= positions[a].y && positions[a].y + NODE_HEIGHT <= ViewHeight(columns)
    ensures Depth(depths, a) < Depth(depths, b) ==> positions[a].x + NODE_WIDTH < positions[b].x
  {
    var i, j := NodeHasPlace(nodes, depths, columns, a);
    var i', j' := NodeHasPlace(nodes, depths, columns, b);
    PlacesInside(columns, i, j);
    if Depth(depths, a) < Depth(depths, b) {
      RowsApart(i, i', NODE_WIDTH + COLUMN_GAP);
    }
  }

  /** With the depths of the relaxation, every edge of a graph without cycles goes strictly rightward. */
  lemma EdgesGoRight(nodes: seq<string>, edges: seq<Edge>, columns: seq<Column>, positions: map<string, Point>, k: nat)
    requires NoRepeats(nodes) && Acyclic(nodes, edges) && EndpointsKnown(nodes, edges) && k < |edges|
    requires ColumnsOf(nodes, FinalDepths(nodes, edges), columns)
    requires forall i, j :: 0 <= i < |columns| && 0 <= j < |columns[i].ids| ==>
               columns[i].ids[j] in positions && positions[columns[i].ids[j]] == PointAt(columns, i, j)
    ensures edges[k].from in positions && edges[k].to in positions
    ensures positions[edges[k].from].x + NODE_WIDTH < positions[edges[k].to].x
  {
    RightwardExactlyWhenAcyclic(nodes, edges);
    assert Depth(FinalDepths(nodes, edges), edges[k].from) < Depth(FinalDepths(nodes, edges), edges[k].to);
    NodesAreLaidOut(nodes, FinalDepths(nodes, edges), columns, positions, edges[k].from, edges[k].to);
  }
}
