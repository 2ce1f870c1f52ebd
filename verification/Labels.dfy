/**
 Placement of edge labels by search (drawGraph in packages/paseo-adapter/src/flowchart-ui.ts), what
 it guarantees about nodes, and exactly when it lets two labels overlap.
 */
module Labels {
  import opened Common
  import opened Layering
  import opened Layout

  const OFFSETS: seq<real> := [0.0, -24.0, 24.0, -48.0, 48.0, -72.0, 72.0, -96.0, 96.0]

  function LongestLine(lines: seq<string>): nat {
    if lines == [] then 0 else Max(LongestLine(lines[..|lines| - 1]), |lines[|lines| - 1]|)
  }

  function LabelWidth(lines: seq<string>): real {
    MinReal(COLUMN_GAP - 20.0, MaxReal(52.0, LongestLine(lines) as real * 7.2 + 20.0))
  }

  function LabelHeight(lines: seq<string>): real {
    MaxReal(24.0, |lines| as real * 14.0 + 8.0)
  }

  /**
   Where the label of an edge is anchored: the middle of a forward edge, or the lowest point of a back edge's route.
   */
  function Anchor(from: Point, to: Point, edgeIndex: nat): Point {
    if to.x > from.x then
      Point((from.x + NODE_WIDTH + to.x) / 2.0, (from.y + NODE_HEIGHT / 2.0 + (to.y + NODE_HEIGHT / 2.0)) / 2.0)
    else
      Point((from.x + NODE_WIDTH / 2.0 + (to.x + NODE_WIDTH / 2.0)) / 2.0,
            MaxReal(from.y + NODE_HEIGHT, to.y + NODE_HEIGHT) + 34.0 + (edgeIndex % 3) as real * 18.0)
  }

  function Candidate(anchor: Point, lines: seq<string>, offset: real): Rect {
    Rect(anchor.x - LabelWidth(lines) / 2.0, anchor.y + offset - LabelHeight(lines) / 2.0, LabelWidth(lines),
        LabelHeight(lines))
  }

  predicate Near(a: Rect, b: Rect, margin: real) {
    a.x < b.x + b.w + margin && a.x + a.w > b.x - margin && a.y < b.y + b.h + margin && a.y + a.h > b.y - margin
  }

  predicate TouchesNode(candidate: Rect, nodeRects: seq<Rect>) {
    exists i :: 0 <= i < |nodeRects| && Near(candidate, nodeRects[i], 6.0)
  }

  /** A placed label, as the list of earlier labels holds it: a record of a box and lines. */
  datatype EdgeLabel = EdgeLabel(box: Rect, lines: seq<string>)

  /** What a property that an object does not have is read as. */
  const UNDEFINED: Option<real> := None

  /** Arithmetic with undefined is not a number. */
  function Plus(a: Option<real>, b: Option<real>): Option<real> {
    if a.Some? && b.Some? then Some(a.value + b.value) else None
  }

  /** A comparison with a value that is not a number is false. */
  predicate Less(a: Option<real>, b: Option<real>) {
    a.Some? && b.Some? && a.value < b.value
  }

  /**
   The label check as written: it reads x, y, w and h from the records of earlier labels, which have a box and lines but
   none of these properties.
   */
  predicate TouchesLabel(candidate: Rect, labels: seq<EdgeLabel>) {
    exists i :: 0 <= i < |labels| && TouchesRecord(candidate, labels[i])
  }

  predicate TouchesRecord(candidate: Rect, placed: EdgeLabel) {
    var x, y, w, h := UNDEFINED, UNDEFINED, UNDEFINED, UNDEFINED;
    && Less(Some(candidate.x), Plus(Plus(x, w), Some(5.0)))
    && Less(Plus(x, Some(-5.0)), Some(candidate.x + candidate.w))
    && Less(Some(candidate.y), Plus(Plus(y, h), Some(5.0)))
    && Less(Plus(y, Some(-5.0)), Some(candidate.y + candidate.h))
  }

  /** The first offset from position k on whose box misses every node. */
  function Search(anchor: Point, lines: seq<string>, nodeRects: seq<Rect>, k: nat): Option<Rect>
    decreases |OFFSETS| - k
  {
    if k >= |OFFSETS| then None
    else if !TouchesNode(Candidate(anchor, lines, OFFSETS[k]), nodeRects)
        then Some(Candidate(anchor, lines, OFFSETS[k]))
    else Search(anchor, lines, nodeRects, k + 1)
  }

  function BoxFor(anchor: Point, lines: seq<string>, nodeRects: seq<Rect>): Rect {
    Search(anchor, lines, nodeRects, 0).GetOr(Candidate(anchor, lines, 0.0))
  }

  /** The search over offsets, with both checks of the source. */
  method FindBox(anchor: Point, lines: seq<string>, nodeRects: seq<Rect>, labels: seq<EdgeLabel>) returns (box: Rect)
    ensures box == BoxFor(anchor, lines, nodeRects)
  {
    var k := 0;
    while k < |OFFSETS|
      invariant 0 <= k <= |OFFSETS|
      invariant Search(anchor, lines, nodeRects, 0) == Search(anchor, lines, nodeRects, k)
    {
      var candidate := Candidate(anchor, lines, OFFSETS[k]);
      if !TouchesNode(candidate, nodeRects) && !TouchesLabel(candidate, labels) { return candidate; }
      k := k + 1;
    }
    box := Candidate(anchor, lines, 0.0);
  }

  /** An edge with both ends placed and a label of at least one line is labelled. */
  predicate Labelled(edge: Edge, lines: seq<string>, positions: map<string, Point>) {
    edge.from in positions && edge.to in positions && lines != []
  }

  function LabelOf(edges: seq<Edge>, lines: seq<seq<string>>, positions: map<string, Point>, nodeRects: seq<Rect>,
                   i: nat): EdgeLabel
    requires i < |edges| && |lines| == |edges| && Labelled(edges[i], lines[i], positions)
  {
    EdgeLabel(BoxFor(Anchor(positions[edges[i].from], positions[edges[i].to], i), lines[i], nodeRects), lines[i])
  }

  /** The labels of the first n edges, each computed from its own edge alone. */
  function LabelsOf(edges: seq<Edge>, lines: seq<seq<string>>, positions: map<string, Point>, nodeRects: seq<Rect>,
                    n: nat): seq<EdgeLabel>
    requires n <= |edges| && |lines| == |edges|
  {
    if n == 0 then [] else
    LabelsOf(edges, lines, positions, nodeRects, n - 1)
    + if Labelled(edges[n - 1], lines[n - 1], positions) then [LabelOf(edges, lines, positions, nodeRects, n - 1)]
        else []
  }

  /** lines[i] holds the wrapped text of edge i, and nothing if it has none. */
  method PlaceLabels(edges: seq<Edge>, lines: seq<seq<string>>, positions: map<string, Point>, nodeRects: seq<Rect>)
    returns (labels: seq<EdgeLabel>)
    requires |lines| == |edges|
    ensures labels == LabelsOf(edges, lines, positions, nodeRects, |edges|)
  {
    labels := [];
    for i := 0 to |edges|
      invariant labels == LabelsOf(edges, lines, positions, nodeRects, i)
    {
      if Labelled(edges[i], lines[i], positions) {
        var anchor := Anchor(positions[edges[i].from], positions[edges[i].to], i);
        var box := FindBox(anchor, lines[i], nodeRects, labels);
        labels := labels + [EdgeLabel(box, lines[i])];
      }
    }
  }

  // ----- Labels and nodes -----

  /**
   A label whose offset the search found overlaps no node; the fallback is taken only when every offset touches one.
   */
  lemma FoundLabelsMissNodes(anchor: Point, lines: seq<string>, nodeRects: seq<Rect>)
    ensures Search(anchor, lines, nodeRects, 0).Some? ==>
              forall i :: 0 <= i < |nodeRects| && nodeRects[i].w >= 0.0 && nodeRects[i].h >= 0.0 ==>
                !Overlap(BoxFor(anchor, lines, nodeRects), nodeRects[i])
    ensures Search(anchor, lines, nodeRects, 0).None? ==>
              BoxFor(anchor, lines, nodeRects) == Candidate(anchor, lines, 0.0)
              && forall j :: 0 <= j < |OFFSETS| ==> TouchesNode(Candidate(anchor, lines, OFFSETS[j]), nodeRects)
  {
    if Search(anchor, lines, nodeRects, 0).Some? {
      var j :| 0 <= j < |OFFSETS| && Search(anchor, lines, nodeRects, 0) == Some(Candidate(anchor, lines, OFFSETS[j]))
               && !TouchesNode(Candidate(anchor, lines, OFFSETS[j]), nodeRects);
      forall i | 0 <= i < |nodeRects| ensures !Near(BoxFor(anchor, lines, nodeRects), nodeRects[i], 6.0) {}
    }
  }

  // ----- Sizes and distances -----

  /** Closer in one direction than half the two sizes together. */
  predicate Close(p: real, q: real, size: real, size': real) {
    2.0 * (p - q) < size + size' && 2.0 * (q - p) < size + size'
  }

  lemma OverlapByCentres(a: Point, ha: seq<string>, b: Point, hb: seq<string>, p: real, q: real)
    ensures Overlap(Candidate(a, ha, p), Candidate(b, hb, q)) <==>
              && Close(a.x, b.x, LabelWidth(ha), LabelWidth(hb))
              && Close(a.y + p, b.y + q, LabelHeight(ha), LabelHeight(hb))
  {
  }

  /** The search stops at the first offset that misses every node. */
  lemma {:induction false} SearchStops(anchor: Point, lines: seq<string>, nodeRects: seq<Rect>, k: nat, q: nat)
    requires k <= q < |OFFSETS|
    requires forall i :: k <= i < q ==> TouchesNode(Candidate(anchor, lines, OFFSETS[i]), nodeRects)
    requires !TouchesNode(Candidate(anchor, lines, OFFSETS[q]), nodeRects)
    ensures Search(anchor, lines, nodeRects, k) == Some(Candidate(anchor, lines, OFFSETS[q]))
    decreases q - k
  {
    if k < q { SearchStops(anchor, lines, nodeRects, k + 1, q); }
  }
}
