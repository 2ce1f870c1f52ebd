/**
 The whole way from a parsed flowchart to its drawing: what drawGraph in packages/paseo-adapter/src/flowchart-ui.ts
 guarantees.
 */
module Drawing {
  import opened Common
  import opened FlowchartParse
  import opened LabelOverlaps
  import opened Labels
  import opened Layering
  import opened Layout

  /** Positions as drawGraph leaves them. */
  ghost predicate Drawn(graph: Graph, columns: seq<Column>, positions: map<string, Point>) {
    && ColumnsOf(IdSeq(graph.nodes), FinalDepths(IdSeq(graph.nodes), graph.edges), columns)
    && forall i, j :: 0 <= i < |columns| && 0 <= j < |columns[i].ids| ==>
         columns[i].ids[j] in positions && positions[columns[i].ids[j]] == PointAt(columns, i, j)
  }

  ghost predicate PlacedApart(graph: Graph, columns: seq<Column>, positions: map<string, Point>, a: string, b: string) {
    && a in positions && b in positions
    && (a != b ==> !Overlap(NodeRect(positions[a]), NodeRect(positions[b])))
    && 0.0 <= positions[a].x && positions[a].x + NODE_WIDTH <= ViewWidth(columns)
    && 0.0 <= positions[a].y && positions[a].y + NODE_HEIGHT <= ViewHeight(columns)
  }

  ghost predicate GoesRight(positions: map<string, Point>, e: Edge) {
    e.from in positions && e.to in positions && positions[e.from].x + NODE_WIDTH < positions[e.to].x
  }

  /** Layering and placement, for any graph the parser returns. */
  method DrawGraph(graph: Graph, lower: Lower) returns (columns: seq<Column>, positions: map<string, Point>)
    requires WellFormed(graph, lower)
    ensures Drawn(graph, columns, positions)
    ensures forall a, b :: a in IdSeq(graph.nodes) && b in IdSeq(graph.nodes) ==>
              PlacedApart(graph, columns, positions, a, b)
    ensures (forall k :: 0 <= k < |graph.edges| ==> GoesRight(positions, graph.edges[k])) <==>
              Acyclic(IdSeq(graph.nodes), graph.edges)
  {
    var ids := IdSeq(graph.nodes);
    var depths := ComputeDepths(ids, graph.edges);
    columns := BuildColumns(ids, depths);
    ColumnsDistinct(ids, depths, columns);
    positions := PlaceNodes(columns);
    forall a, b | a in ids && b in ids ensures PlacedApart(graph, columns, positions, a, b) {
      NodesAreLaidOut(ids, depths, columns, positions, a, b);
    }
    RightExactlyWhenAcyclic(graph, lower, columns, positions);
  }

  /** Every edge is drawn strictly rightward exactly when the graph has no cycle. */
  lemma RightExactlyWhenAcyclic(graph: Graph, lower: Lower, columns: seq<Column>, positions: map<string, Point>)
    requires WellFormed(graph, lower) && Drawn(graph, columns, positions)
    ensures (forall k :: 0 <= k < |graph.edges| ==> GoesRight(positions, graph.edges[k])) <==>
              Acyclic(IdSeq(graph.nodes), graph.edges)
  {
    var ids := IdSeq(graph.nodes);
    if Acyclic(ids, graph.edges) {
      forall k | 0 <= k < |graph.edges| ensures GoesRight(positions, graph.edges[k]) {
        EdgesGoRight(ids, graph.edges, columns, positions, k);
      }
    }
    if forall k :: 0 <= k < |graph.edges| ==> GoesRight(positions, graph.edges[k]) {
      forall k | 0 <= k < |graph.edges|
        ensures Depth(FinalDepths(ids, graph.edges), graph.edges[k].from)
             < Depth(FinalDepths(ids, graph.edges), graph.edges[k].to) {
        assert GoesRight(positions, graph.edges[k]);
        RightMeansDeeper(graph, lower, columns, positions, graph.edges[k].from, graph.edges[k].to);
      }
      RightwardExactlyWhenAcyclic(ids, graph.edges);
    }
  }

  lemma RightMeansDeeper(graph: Graph, lower: Lower, columns: seq<Column>, positions: map<string, Point>, a: string,
                         b: string)
    requires WellFormed(graph, lower) && Drawn(graph, columns, positions)
    requires a in IdSeq(graph.nodes) && b in IdSeq(graph.nodes) && a in positions && b in positions
    requires positions[a].x < positions[b].x
    ensures Depth(FinalDepths(IdSeq(graph.nodes), graph.edges), a)
         < Depth(FinalDepths(IdSeq(graph.nodes), graph.edges), b)
  {
    var ids := IdSeq(graph.nodes);
    var depths := FinalDepths(ids, graph.edges);
    var i, j := NodeHasPlace(ids, depths, columns, a);
    var i', j' := NodeHasPlace(ids, depths, columns, b);
    assert positions[a] == PointAt(columns, i, j) && positions[b] == PointAt(columns, i', j');
    if i' < i { RowsApart(i', i, NODE_WIDTH + COLUMN_GAP); }
    assert i < i';
  }

  function NodeRects(nodes: seq<Node>, positions: map<string, Point>): seq<Rect>
    requires forall i :: 0 <= i < |nodes| ==> nodes[i].id in positions
  {
    seq(|nodes|, i requires 0 <= i < |nodes| => NodeRect(positions[nodes[i].id]))
  }

  ghost predicate AllPlaced(nodes: seq<Node>, columns: seq<Column>, positions: map<string, Point>) {
    forall i :: 0 <= i < |nodes| ==> nodes[i].id in positions && IsPlace(columns, positions[nodes[i].id])
  }

  lemma DrawnAllPlaced(graph: Graph, lower: Lower, columns: seq<Column>, positions: map<string, Point>)
    requires WellFormed(graph, lower) && Drawn(graph, columns, positions)
    ensures AllPlaced(graph.nodes, columns, positions)
  {
    var ids := IdSeq(graph.nodes);
    forall n | 0 <= n < |graph.nodes|
      ensures graph.nodes[n].id in positions && IsPlace(columns, positions[graph.nodes[n].id]) {
      assert ids[n] in ids;
      var i, j := NodeHasPlace(ids, FinalDepths(ids, graph.edges), columns, graph.nodes[n].id);
      assert Slot(columns, i, j);
    }
  }

  /** The places of the columns are those of the nodes, no more and no less. */
  lemma DrawnOnPlaces(graph: Graph, lower: Lower, columns: seq<Column>, positions: map<string, Point>)
    requires WellFormed(graph, lower) && Drawn(graph, columns, positions)
    ensures AllPlaced(graph.nodes, columns, positions) && OnPlaces(columns, NodeRects(graph.nodes, positions))
  {
    var ids, depths := IdSeq(graph.nodes), FinalDepths(IdSeq(graph.nodes), graph.edges);
    DrawnAllPlaced(graph, lower, columns, positions);
    var rects := NodeRects(graph.nodes, positions);
    forall n | 0 <= n < |rects| ensures AtSomePlace(columns, rects[n]) {
      assert IsPlace(columns, positions[graph.nodes[n].id]);
    }
    forall c, j | Slot(columns, c, j) ensures NodeRect(PointAt(columns, c, j)) in rects {
      FilterNoRepeats(AtDepth(depths, columns[c].depth), ids);
      assert columns[c].ids[j] in ids;
      var n :| 0 <= n < |ids| && ids[n] == columns[c].ids[j];
      assert rects[n] == NodeRect(PointAt(columns, c, j));
    }
  }

  // ----- Labels of a drawing -----

  /** The labels of edges i and k are too close, as far as the places of their ends and their sizes tell. */
  predicate Collide(columns: seq<Column>, edges: seq<Edge>, lines: seq<seq<string>>, positions: map<string, Point>,
                    i: int, k: int)
    requires 0 <= i < |edges| && 0 <= k < |edges| && |lines| == |edges|
    requires Labelled(edges[i], lines[i], positions) && Labelled(edges[k], lines[k], positions)
    requires 0 <= SpanOf(positions, edges[i]) / 2 < |columns| && 0 <= SpanOf(positions, edges[k]) / 2 < |columns|
  {
    && SpanOf(positions, edges[i]) == SpanOf(positions, edges[k])
    && Close(LabelY(columns, positions[edges[i].from], positions[edges[i].to], i, lines[i]),
             LabelY(columns, positions[edges[k].from], positions[edges[k].to], k, lines[k]),
             LabelHeight(lines[i]), LabelHeight(lines[k]))
  }

  function SpanOf(positions: map<string, Point>, e: Edge): int
    requires e.from in positions && e.to in positions
  {
    Span(positions[e.from], positions[e.to])
  }

  ghost predicate SpansInDrawing(columns: seq<Column>, edges: seq<Edge>, positions: map<string, Point>) {
    forall i :: 0 <= i < |edges| ==>
      edges[i].from in positions && edges[i].to in positions && 0 <= SpanOf(positions, edges[i]) / 2 < |columns|
  }

  /** Labels as wrapped: at most two lines for each edge. */
  ghost predicate ShortLabels(graph: Graph, lines: seq<seq<string>>) {
    |lines| == |graph.edges| && forall i :: 0 <= i < |lines| ==> |lines[i]| <= 2
  }

  lemma EndsArePlaces(graph: Graph, lower: Lower, columns: seq<Column>, positions: map<string, Point>, k: nat)
    requires WellFormed(graph, lower) && Drawn(graph, columns, positions) && k < |graph.edges|
    ensures graph.edges[k].from in positions && IsPlace(columns, positions[graph.edges[k].from])
    ensures graph.edges[k].to in positions && IsPlace(columns, positions[graph.edges[k].to])
    ensures 0 <= SpanOf(positions, graph.edges[k]) / 2 < |columns|
  {
    var e := graph.edges[k];
    DrawnAllPlaced(graph, lower, columns, positions);
    assert e.from in IdSeq(graph.nodes) && e.to in IdSeq(graph.nodes);
    var n :| 0 <= n < |graph.nodes| && graph.nodes[n].id == e.from;
    var m :| 0 <= m < |graph.nodes| && graph.nodes[m].id == e.to;
    PlacesHaveSpan(columns, positions[e.from], positions[e.to], k);
  }

  /**
   In any drawing of a parsed graph, the labels of two edges overlap exactly when they collide by places and sizes.
   */
  lemma LabelsOverlapExactly(graph: Graph, lower: Lower, columns: seq<Column>, positions: map<string, Point>,
                             lines: seq<seq<string>>, i: nat, k: nat)
    requires WellFormed(graph, lower) && Drawn(graph, columns, positions) && ShortLabels(graph, lines)
    requires i < |graph.edges| && k < |graph.edges|
    requires Labelled(graph.edges[i], lines[i], positions) && Labelled(graph.edges[k], lines[k], positions)
    ensures AllPlaced(graph.nodes, columns, positions) && SpansInDrawing(columns, graph.edges, positions)
    ensures var rects := NodeRects(graph.nodes, positions);
            Overlap(LabelOf(graph.edges, lines, positions, rects, i).box,
                LabelOf(graph.edges, lines, positions, rects, k).box)
            <==> Collide(columns, graph.edges, lines, positions, i, k)
  {
    AllSpansInDrawing(graph, lower, columns, positions);
    DrawnOnPlaces(graph, lower, columns, positions);
    EndsArePlaces(graph, lower, columns, positions, i);
    EndsArePlaces(graph, lower, columns, positions, k);
    OverlapExactly(columns, NodeRects(graph.nodes, positions),
                   positions[graph.edges[i].from], positions[graph.edges[i].to], i, lines[i],
                   positions[graph.edges[k].from], positions[graph.edges[k].to], k, lines[k]);
  }

  lemma AllSpansInDrawing(graph: Graph, lower: Lower, columns: seq<Column>, positions: map<string, Point>)
    requires WellFormed(graph, lower) && Drawn(graph, columns, positions)
    ensures SpansInDrawing(columns, graph.edges, positions)
  {
    forall i | 0 <= i < |graph.edges|
      ensures graph.edges[i].from in positions && graph.edges[i].to in positions
              && 0 <= SpanOf(positions, graph.edges[i]) / 2 < |columns| {
      EndsArePlaces(graph, lower, columns, positions, i);
    }
  }

  ghost predicate Apart(labels: seq<EdgeLabel>) {
    forall a, b :: 0 <= a < b < |labels| ==> !Overlap(labels[a].box, labels[b].box)
  }

  predicate BothLabelled(edges: seq<Edge>, lines: seq<seq<string>>, positions: map<string, Point>, i: int, k: int)
    requires |lines| == |edges|
  {
    0 <= i < |edges| && 0 <= k < |edges| && Labelled(edges[i], lines[i], positions)
        && Labelled(edges[k], lines[k], positions)
  }

  /** No two of the first n edges have overlapping labels. */
  ghost predicate EdgesApart(edges: seq<Edge>, lines: seq<seq<string>>, positions: map<string, Point>, rects: seq<Rect>,
                             n: nat)
    requires |lines| == |edges| && n <= |edges|
  {
    forall i, k :: 0 <= i < k < n && BothLabelled(edges, lines, positions, i, k) ==>
      !Overlap(LabelOf(edges, lines, positions, rects, i).box, LabelOf(edges, lines, positions, rects, k).box)
  }

  lemma {:induction false} LabelsAre(edges: seq<Edge>, lines: seq<seq<string>>, positions: map<string, Point>,
                                     rects: seq<Rect>,
                                     n: nat, l: EdgeLabel)
    requires |lines| == |edges| && n <= |edges|
    ensures l in LabelsOf(edges, lines, positions, rects, n) <==>
              exists i :: 0 <= i < n && Labelled(edges[i], lines[i], positions)
                  && LabelOf(edges, lines, positions, rects, i) == l
  {
    if n > 0 { LabelsAre(edges, lines, positions, rects, n - 1, l); }
  }

  lemma {:induction false} ApartExactly(edges: seq<Edge>, lines: seq<seq<string>>, positions: map<string, Point>,
                                        rects: seq<Rect>, n: nat)
    requires |lines| == |edges| && n <= |edges|
    ensures Apart(LabelsOf(edges, lines, positions, rects, n)) <==> EdgesApart(edges, lines, positions, rects, n)
  {
    if n == 0 {
      assert LabelsOf(edges, lines, positions, rects, n) == [];
    } else {
      ApartExactly(edges, lines, positions, rects, n - 1);
      ApartNext(edges, lines, positions, rects, n - 1);
    }
  }

  /** The label of edge n overlaps no label of an earlier edge. */
  ghost predicate LastApart(edges: seq<Edge>, lines: seq<seq<string>>, positions: map<string, Point>, rects: seq<Rect>,
                            n: nat)
    requires |lines| == |edges| && n < |edges|
  {
    forall i :: 0 <= i < n && BothLabelled(edges, lines, positions, i, n) ==>
      !Overlap(LabelOf(edges, lines, positions, rects, i).box, LabelOf(edges, lines, positions, rects, n).box)
  }

  lemma LastApartExactly(edges: seq<Edge>, lines: seq<seq<string>>, positions: map<string, Point>, rects: seq<Rect>,
                         n: nat)
    requires |lines| == |edges| && n < |edges| && Labelled(edges[n], lines[n], positions)
    ensures LastApart(edges, lines, positions, rects, n) <==>
              forall l :: l in LabelsOf(edges, lines, positions, rects, n) ==>
                !Overlap(l.box, LabelOf(edges, lines, positions, rects, n).box)
  {
    forall l: EdgeLabel ensures l in LabelsOf(edges, lines, positions, rects, n) <==>
        exists i :: 0 <= i < n && Labelled(edges[i], lines[i], positions)
            && LabelOf(edges, lines, positions, rects, i) == l {
      LabelsAre(edges, lines, positions, rects, n, l);
    }
  }

  lemma EdgesApartNext(edges: seq<Edge>, lines: seq<seq<string>>, positions: map<string, Point>, rects: seq<Rect>,
                       n: nat)
    requires |lines| == |edges| && n < |edges|
    ensures EdgesApart(edges, lines, positions, rects, n + 1) <==>
              EdgesApart(edges, lines, positions, rects, n) && LastApart(edges, lines, positions, rects, n)
  {
  }

  /** One more edge keeps the labels apart exactly when its own label overlaps none of the earlier ones. */
  lemma ApartNext(edges: seq<Edge>, lines: seq<seq<string>>, positions: map<string, Point>, rects: seq<Rect>, n: nat)
    requires |lines| == |edges| && n < |edges|
    requires Apart(LabelsOf(edges, lines, positions, rects, n)) <==> EdgesApart(edges, lines, positions, rects, n)
    ensures Apart(LabelsOf(edges, lines, positions, rects, n + 1)) <==>
              EdgesApart(edges, lines, positions, rects, n + 1)
  {
    EdgesApartNext(edges, lines, positions, rects, n);
    if Labelled(edges[n], lines[n], positions) {
      LastApartExactly(edges, lines, positions, rects, n);
      ApartSnoc(LabelsOf(edges, lines, positions, rects, n), LabelOf(edges, lines, positions, rects, n));
    } else {
      assert LabelsOf(edges, lines, positions, rects, n + 1) == LabelsOf(edges, lines, positions, rects, n);
    }
  }

  lemma ApartSnoc(before: seq<EdgeLabel>, last: EdgeLabel)
    ensures Apart(before + [last]) <==> Apart(before) && forall l :: l in before ==> !Overlap(l.box, last.box)
  {
    var all := before + [last];
    if Apart(all) {
      forall a, b | 0 <= a < b < |before| ensures !Overlap(before[a].box, before[b].box) {
        assert all[a] == before[a] && all[b] == before[b];
      }
      forall l | l in before ensures !Overlap(l.box, last.box) {
        var a :| 0 <= a < |before| && before[a] == l;
        assert all[a] == l && all[|before|] == last;
      }
    }
  }

  /**
   All labels of a drawing: none touches a node, and no two overlap exactly when no two edges collide by places and
   sizes.
   */
  method DrawLabels(graph: Graph, lower: Lower, columns: seq<Column>, positions: map<string, Point>,
                    lines: seq<seq<string>>)
    returns (labels: seq<EdgeLabel>)
    requires WellFormed(graph, lower) && Drawn(graph, columns, positions) && ShortLabels(graph, lines)
    ensures AllPlaced(graph.nodes, columns, positions) && SpansInDrawing(columns, graph.edges, positions)
    ensures labels == LabelsOf(graph.edges, lines, positions, NodeRects(graph.nodes, positions), |graph.edges|)
    ensures forall l, n :: l in labels && 0 <= n < |graph.nodes| ==>
              !Overlap(l.box, NodeRects(graph.nodes, positions)[n])
    ensures Apart(labels) <==>
              forall i, k :: 0 <= i < k && BothLabelled(graph.edges, lines, positions, i, k) ==>
                !Collide(columns, graph.edges, lines, positions, i, k)
  {
    DrawnOnPlaces(graph, lower, columns, positions);
    AllSpansInDrawing(graph, lower, columns, positions);
    labels := PlaceLabels(graph.edges, lines, positions, NodeRects(graph.nodes, positions));
    LabelsMissNodes(graph, lower, columns, positions, lines);
    ApartExactlyWhenNoneCollide(graph, lower, columns, positions, lines);
  }

  lemma LabelsMissNodes(graph: Graph, lower: Lower, columns: seq<Column>, positions: map<string, Point>,
                        lines: seq<seq<string>>)
    requires WellFormed(graph, lower) && Drawn(graph, columns, positions) && ShortLabels(graph, lines)
    ensures AllPlaced(graph.nodes, columns, positions)
    ensures var rects := NodeRects(graph.nodes, positions);
            forall l, n ::
              l in LabelsOf(graph.edges, lines, positions, rects, |graph.edges|) && 0 <= n < |graph.nodes| ==>
              !Overlap(l.box, rects[n])
  {
    DrawnOnPlaces(graph, lower, columns, positions);
    var rects := NodeRects(graph.nodes, positions);
    forall l, n | l in LabelsOf(graph.edges, lines, positions, rects, |graph.edges|) && 0 <= n < |graph.nodes|
      ensures !Overlap(l.box, rects[n]) {
      LabelsAre(graph.edges, lines, positions, rects, |graph.edges|, l);
      var i :| 0 <= i < |graph.edges| && Labelled(graph.edges[i], lines[i], positions)
               && LabelOf(graph.edges, lines, positions, rects, i) == l;
      LabelMissesNode(graph, lower, columns, positions, lines, i, n);
    }
  }

  lemma LabelMissesNode(graph: Graph, lower: Lower, columns: seq<Column>, positions: map<string, Point>,
                        lines: seq<seq<string>>, i: nat, n: nat)
    requires WellFormed(graph, lower) && Drawn(graph, columns, positions) && ShortLabels(graph, lines)
    requires i < |graph.edges| && Labelled(graph.edges[i], lines[i], positions) && n < |graph.nodes|
    ensures AllPlaced(graph.nodes, columns, positions)
    ensures var rects := NodeRects(graph.nodes, positions);
            !Overlap(LabelOf(graph.edges, lines, positions, rects, i).box, rects[n])
  {
    DrawnOnPlaces(graph, lower, columns, positions);
    var rects := NodeRects(graph.nodes, positions);
    var from, to := positions[graph.edges[i].from], positions[graph.edges[i].to];
    EndsArePlaces(graph, lower, columns, positions, i);
    BoxIsShifted(columns, rects, from, to, i, lines[i]);
    FoundLabelsMissNodes(Anchor(from, to, i), lines[i], rects);
    assert rects[n].w >= 0.0 && rects[n].h >= 0.0;
  }

  lemma ApartExactlyWhenNoneCollide(graph: Graph, lower: Lower, columns: seq<Column>, positions: map<string, Point>,
                                    lines: seq<seq<string>>)
    requires WellFormed(graph, lower) && Drawn(graph, columns, positions) && ShortLabels(graph, lines)
    ensures AllPlaced(graph.nodes, columns, positions) && SpansInDrawing(columns, graph.edges, positions)
    ensures Apart(LabelsOf(graph.edges, lines, positions, NodeRects(graph.nodes, positions), |graph.edges|)) <==>
              forall i, k :: 0 <= i < k && BothLabelled(graph.edges, lines, positions, i, k) ==>
                !Collide(columns, graph.edges, lines, positions, i, k)
  {
    DrawnOnPlaces(graph, lower, columns, positions);
    AllSpansInDrawing(graph, lower, columns, positions);
    var rects := NodeRects(graph.nodes, positions);
    ApartExactly(graph.edges, lines, positions, rects, |graph.edges|);
    forall i, k | 0 <= i < k && BothLabelled(graph.edges, lines, positions, i, k)
      ensures Overlap(LabelOf(graph.edges, lines, positions, rects, i).box,
                LabelOf(graph.edges, lines, positions, rects, k).box)
              <==> Collide(columns, graph.edges, lines, positions, i, k) {
      LabelsOverlapExactly(graph, lower, columns, positions, lines, i, k);
    }
  }

  /**
   Two edges with the same ends are both kept when their captions differ. If they lead forward, their labels
   always overlap when they end up between columns or have the same height.
   */
  lemma ParallelEdgesCollide(graph: Graph, lower: Lower, columns: seq<Column>, positions: map<string, Point>,
                             lines: seq<seq<string>>, i: nat, k: nat)
    requires WellFormed(graph, lower) && Drawn(graph, columns, positions) && ShortLabels(graph, lines)
    requires i < k && BothLabelled(graph.edges, lines, positions, i, k)
    requires graph.edges[i].from == graph.edges[k].from && graph.edges[i].to == graph.edges[k].to
    requires positions[graph.edges[i].to].x > positions[graph.edges[i].from].x
    requires SpanOf(positions, graph.edges[i]) % 2 == 1 || LabelHeight(lines[i]) == LabelHeight(lines[k])
    ensures AllPlaced(graph.nodes, columns, positions)
    ensures var rects := NodeRects(graph.nodes, positions);
            Overlap(LabelOf(graph.edges, lines, positions, rects, i).box,
                LabelOf(graph.edges, lines, positions, rects, k).box)
  {
    LabelsOverlapExactly(graph, lower, columns, positions, lines, i, k);
    EndsArePlaces(graph, lower, columns, positions, i);
    ParallelLabelsMeet(columns, positions[graph.edges[i].from], positions[graph.edges[i].to], i, lines[i], k, lines[k]);
    assert Collide(columns, graph.edges, lines, positions, i, k);
  }
}
