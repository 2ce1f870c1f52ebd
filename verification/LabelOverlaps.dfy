/**
 Where labels end up in a drawing, in terms of columns and rows alone, and so which labels overlap
 (drawGraph in packages/paseo-adapter/src/flowchart-ui.ts).
 */
module LabelOverlaps {
  import opened Common
  import opened Labels
  import opened Layout

  const PITCH := 204.0

  /** The node rectangles are those of the places in the columns. */
  ghost predicate OnPlaces(columns: seq<Column>, nodeRects: seq<Rect>) {
    && (forall n :: 0 <= n < |nodeRects| ==> AtSomePlace(columns, nodeRects[n]))
    && (forall c, j :: Slot(columns, c, j) ==> NodeRect(PointAt(columns, c, j)) in nodeRects)
  }

  ghost predicate AtSomePlace(columns: seq<Column>, r: Rect) {
    exists c, j :: Slot(columns, c, j) && r == NodeRect(PointAt(columns, c, j))
  }

  /** Half way between columns c and d, with span c + d. */
  function MiddleX(span: int): real {
    180.0 + span as real * 194.0
  }

  /** The height of the middle of row j of column c. */
  function RowMiddle(columns: seq<Column>, c: nat, j: int): real
    requires c < |columns|
  {
    PAD_Y + (StackHeight(LargestColumn(columns)) - StackHeight(|columns[c].ids|)) / 2.0 + 64.0 + j as real * PITCH
  }

  /** How close to the middle of a node the middle of a label must not come: half of each, and the margin. */
  function Reach(lines: seq<string>): real {
    70.0 + LabelHeight(lines) / 2.0
  }

  predicate InReach(distance: real, reach: real) {
    -reach < distance < reach
  }

  // ----- The shift of a label, from rows -----

  /** The only row of the column that a label at this height could touch. */
  function NearestRow(columns: seq<Column>, c: nat, y: real): int
    requires c < |columns|
  {
    ((y - RowMiddle(columns, c, 0) + PITCH / 2.0) / PITCH).Floor
  }

  /** How many steps of 24 cover a distance. */
  function Steps(distance: real): int {
    -((-distance / 24.0).Floor)
  }

  /** The way out of a row whose middle is at this distance: up if that takes no more steps, else down. */
  function Escape(distance: real, reach: real): real {
    if Steps(reach + distance) <= Steps(reach - distance)
    then Steps(reach + distance) as real * -24.0
    else Steps(reach - distance) as real * 24.0
  }

  /**
   The offset of a label anchored at height y, half way between two columns: none between columns, and in a
   column only what it takes to leave the nearest row.
   */
  function Shift(columns: seq<Column>, span: int, y: real, lines: seq<string>): real
    requires 0 <= span / 2 < |columns|
  {
    var c := span / 2;
    var row := NearestRow(columns, c, y);
    var distance := y - RowMiddle(columns, c, row);
    if span % 2 == 0 && 0 <= row < |columns[c].ids| && InReach(distance, Reach(lines))
        then Escape(distance, Reach(lines)) else 0.0
  }

  // ----- Touching a node, from rows -----

  /**
   A label whose middle is half way between two columns touches a node exactly in that column and within reach of its
   row.
   */
  lemma NearExactly(columns: seq<Column>, c: nat, j: nat, span: int, y: real, lines: seq<string>)
    requires Slot(columns, c, j)
    ensures Near(Candidate(Point(MiddleX(span), y), lines, 0.0), NodeRect(PointAt(columns, c, j)), 6.0) <==>
              span == 2 * c && InReach(y - RowMiddle(columns, c, j), Reach(lines))
  {
  }

  predicate Blocked(columns: seq<Column>, span: int, y: real, lines: seq<string>)
    requires 0 <= span / 2 < |columns|
  {
    && span % 2 == 0
    && exists j ::
         0 <= j < |columns[span / 2].ids| && InReach(y - RowMiddle(columns, span / 2, j), Reach(lines))
  }

  lemma TouchingIsBlocked(columns: seq<Column>, nodeRects: seq<Rect>, span: int, y: real, lines: seq<string>)
    requires OnPlaces(columns, nodeRects) && 0 <= span / 2 < |columns|
    requires TouchesNode(Candidate(Point(MiddleX(span), y), lines, 0.0), nodeRects)
    ensures Blocked(columns, span, y, lines)
  {
    var box := Candidate(Point(MiddleX(span), y), lines, 0.0);
    var n :| 0 <= n < |nodeRects| && Near(box, nodeRects[n], 6.0);
    assert AtSomePlace(columns, nodeRects[n]);
    var c, j :| Slot(columns, c, j) && nodeRects[n] == NodeRect(PointAt(columns, c, j));
    NearExactly(columns, c, j, span, y, lines);
  }

  lemma BlockedIsTouching(columns: seq<Column>, nodeRects: seq<Rect>, span: int, y: real, lines: seq<string>)
    requires OnPlaces(columns, nodeRects) && 0 <= span / 2 < |columns| && Blocked(columns, span, y, lines)
    ensures TouchesNode(Candidate(Point(MiddleX(span), y), lines, 0.0), nodeRects)
  {
    var j :| 0 <= j < |columns[span / 2].ids| && InReach(y - RowMiddle(columns, span / 2, j), Reach(lines));
    assert Slot(columns, span / 2, j);
    NearExactly(columns, span / 2, j, span, y, lines);
    var n :| 0 <= n < |nodeRects| && nodeRects[n] == NodeRect(PointAt(columns, span / 2, j));
    assert Near(Candidate(Point(MiddleX(span), y), lines, 0.0), nodeRects[n], 6.0);
  }

  lemma TouchesExactly(columns: seq<Column>, nodeRects: seq<Rect>, span: int, y: real, lines: seq<string>, offset: real)
    requires OnPlaces(columns, nodeRects) && 0 <= span / 2 < |columns|
    ensures TouchesNode(Candidate(Point(MiddleX(span), y), lines, offset), nodeRects) <==>
              Blocked(columns, span, y + offset, lines)
  {
    if TouchesNode(Candidate(Point(MiddleX(span), y), lines, offset), nodeRects) {
      TouchingIsBlocked(columns, nodeRects, span, y + offset, lines);
    }
    if Blocked(columns, span, y + offset, lines) { BlockedIsTouching(columns, nodeRects, span, y + offset, lines); }
  }

  // ----- The search finds the shift -----

  /** Within reach is only the nearest row. */
  lemma NearestRowIsNearest(columns: seq<Column>, c: nat, y: real, j: int)
    requires c < |columns| && InReach(y - RowMiddle(columns, c, j), 102.0)
    ensures j == NearestRow(columns, c, y)
  {
    var q := (y - RowMiddle(columns, c, 0) + PITCH / 2.0) / PITCH;
    assert q * PITCH == y - RowMiddle(columns, c, 0) + PITCH / 2.0;
    assert j as real <= q < j as real + 1.0;
  }

  lemma BlockedByNearest(columns: seq<Column>, span: int, y: real, lines: seq<string>)
    requires 0 <= span / 2 < |columns| && |lines| <= 2 && Blocked(columns, span, y, lines)
    ensures var row := NearestRow(columns, span / 2, y);
            0 <= row < |columns[span / 2].ids| && InReach(y - RowMiddle(columns, span / 2, row), Reach(lines))
  {
    var j :| 0 <= j < |columns[span / 2].ids| && InReach(y - RowMiddle(columns, span / 2, j), Reach(lines));
    NearestRowIsNearest(columns, span / 2, y, j);
  }

  /** Just outside the reach of one row, a label is outside the reach of every row. */
  lemma FreeBeyondRow(columns: seq<Column>, c: nat, y: real, row: int, lines: seq<string>, j: int)
    requires c < |columns| && |lines| <= 2
    requires var d := y - RowMiddle(columns, c, row);
             Reach(lines) <= d <= Reach(lines) + 24.0 || Reach(lines) <= -d <= Reach(lines) + 24.0
    ensures !InReach(y - RowMiddle(columns, c, j), Reach(lines))
  {
    var gap := (j - row) as real * PITCH;
    assert y - RowMiddle(columns, c, j) == y - RowMiddle(columns, c, row) - gap;
    assert gap == 0.0 || gap >= PITCH || gap <= -PITCH;
  }

  /** The position in the search order of the way out. */
  function EscapeIndex(distance: real, reach: real): int {
    if Steps(reach + distance) <= Steps(reach - distance) then 2 * Steps(reach + distance) - 1
        else 2 * Steps(reach - distance)
  }

  lemma EscapeIsFree(columns: seq<Column>, span: int, y: real, lines: seq<string>)
    requires 0 <= span / 2 < |columns| && |lines| <= 2 && Blocked(columns, span, y, lines)
    ensures !Blocked(columns, span, y + Shift(columns, span, y, lines), lines)
  {
    BlockedByNearest(columns, span, y, lines);
    var row := NearestRow(columns, span / 2, y);
    forall j ensures !InReach(y + Shift(columns, span, y, lines) - RowMiddle(columns, span / 2, j), Reach(lines)) {
      FreeBeyondRow(columns, span / 2, y + Shift(columns, span, y, lines), row, lines, j);
    }
  }

  /** The position of the shift in the search order. */
  function ShiftIndex(columns: seq<Column>, span: int, y: real, lines: seq<string>): int
    requires 0 <= span / 2 < |columns|
  {
    EscapeIndex(y - RowMiddle(columns, span / 2, NearestRow(columns, span / 2, y)), Reach(lines))
  }

  lemma ShiftIsAtIndex(columns: seq<Column>, span: int, y: real, lines: seq<string>)
    requires 0 <= span / 2 < |columns| && |lines| <= 2 && Blocked(columns, span, y, lines)
    ensures 0 <= ShiftIndex(columns, span, y, lines) < |OFFSETS|
    ensures OFFSETS[ShiftIndex(columns, span, y, lines)] == Shift(columns, span, y, lines)
  {
    BlockedByNearest(columns, span, y, lines);
  }

  lemma SearchEscapes(columns: seq<Column>, nodeRects: seq<Rect>, span: int, y: real, lines: seq<string>)
    requires OnPlaces(columns, nodeRects) && 0 <= span / 2 < |columns| && |lines| <= 2
               && Blocked(columns, span, y, lines)
    ensures var anchor := Point(MiddleX(span), y);
            Search(anchor, lines, nodeRects, 0) == Some(Candidate(anchor, lines, Shift(columns, span, y, lines)))
  {
    var anchor := Point(MiddleX(span), y);
    var q := ShiftIndex(columns, span, y, lines);
    ShiftIsAtIndex(columns, span, y, lines);
    forall i | 0 <= i < q ensures TouchesNode(Candidate(anchor, lines, OFFSETS[i]), nodeRects) {
      TouchesExactly(columns, nodeRects, span, y, lines, OFFSETS[i]);
    }
    EscapeIsFree(columns, span, y, lines);
    TouchesExactly(columns, nodeRects, span, y, lines, OFFSETS[q]);
    SearchStops(anchor, lines, nodeRects, 0, q);
  }

  /**
   Every label of one or two lines is placed by the search, and its offset is the shift: the fallback is never taken.
   */
  lemma SearchFindsShift(columns: seq<Column>, nodeRects: seq<Rect>, span: int, y: real, lines: seq<string>)
    requires OnPlaces(columns, nodeRects) && 0 <= span / 2 < |columns| && |lines| <= 2
    ensures var anchor := Point(MiddleX(span), y);
            Search(anchor, lines, nodeRects, 0) == Some(Candidate(anchor, lines, Shift(columns, span, y, lines)))
  {
    if Blocked(columns, span, y, lines) {
      SearchEscapes(columns, nodeRects, span, y, lines);
    } else {
      TouchesExactly(columns, nodeRects, span, y, lines, OFFSETS[0]);
      SearchStops(Point(MiddleX(span), y), lines, nodeRects, 0, 0);
    }
  }

  // ----- Edges between places -----

  /** The column a place stands in. */
  function ColumnOf(p: Point): int {
    ((p.x - PAD_X) / (NODE_WIDTH + COLUMN_GAP)).Floor
  }

  /**
   The sum of the columns of both ends: odd when the middle of the edge falls between columns, else twice the column
   it falls in.
   */
  function Span(from: Point, to: Point): int {
    ColumnOf(from) + ColumnOf(to)
  }

  lemma PlaceHasColumn(columns: seq<Column>, i: nat, j: nat)
    requires Slot(columns, i, j)
    ensures ColumnOf(PointAt(columns, i, j)) == i
  {
    assert (i as real * 388.0) / 388.0 == i as real;
  }

  /** Forward or back, the anchor stands half way between the columns of the ends. */
  lemma AnchorIsHalfWay(columns: seq<Column>, i: nat, j: nat, i': nat, j': nat, edgeIndex: nat)
    requires Slot(columns, i, j) && Slot(columns, i', j')
    ensures var from, to := PointAt(columns, i, j), PointAt(columns, i', j');
            Span(from, to) == i + i' && 0 <= (i + i') / 2 < |columns|
                && Anchor(from, to, edgeIndex).x == MiddleX(i + i')
  {
    PlaceHasColumn(columns, i, j);
    PlaceHasColumn(columns, i', j');
  }

  /**
   Where the middle of a label ends up: the anchor of its edge, shifted out of the nearest row if it stands in a
   column.
   */
  function LabelY(columns: seq<Column>, from: Point, to: Point, edgeIndex: nat, lines: seq<string>): real
    requires 0 <= Span(from, to) / 2 < |columns|
  {
    var y := Anchor(from, to, edgeIndex).y;
    y + Shift(columns, Span(from, to), y, lines)
  }

  ghost predicate IsPlace(columns: seq<Column>, p: Point) {
    exists i, j :: Slot(columns, i, j) && p == PointAt(columns, i, j)
  }

  lemma PlacesHaveSpan(columns: seq<Column>, from: Point, to: Point, edgeIndex: nat)
    requires IsPlace(columns, from) && IsPlace(columns, to)
    ensures 0 <= Span(from, to) / 2 < |columns| && Anchor(from, to, edgeIndex).x == MiddleX(Span(from, to))
  {
    var i, j :| Slot(columns, i, j) && from == PointAt(columns, i, j);
    var i', j' :| Slot(columns, i', j') && to == PointAt(columns, i', j');
    AnchorIsHalfWay(columns, i, j, i', j', edgeIndex);
  }

  /** The box of a label, from the places of its ends, the columns and its size. */
  lemma BoxIsShifted(columns: seq<Column>, nodeRects: seq<Rect>, from: Point, to: Point, edgeIndex: nat,
                     lines: seq<string>)
    requires OnPlaces(columns, nodeRects) && IsPlace(columns, from) && IsPlace(columns, to) && |lines| <= 2
    ensures 0 <= Span(from, to) / 2 < |columns|
    ensures Search(Anchor(from, to, edgeIndex), lines, nodeRects, 0).Some?
    ensures BoxFor(Anchor(from, to, edgeIndex), lines, nodeRects)
         == Candidate(Point(MiddleX(Span(from, to)), LabelY(columns, from, to, edgeIndex, lines)), lines, 0.0)
  {
    PlacesHaveSpan(columns, from, to, edgeIndex);
    var anchor := Anchor(from, to, edgeIndex);
    SearchFindsShift(columns, nodeRects, Span(from, to), anchor.y, lines);
  }

  /**
   Between columns no label is shifted, so the label of every edge an odd number of columns long stays at its anchor.
   */
  lemma OddSpanKeepsAnchor(columns: seq<Column>, nodeRects: seq<Rect>, from: Point, to: Point, edgeIndex: nat,
                           lines: seq<string>)
    requires OnPlaces(columns, nodeRects) && IsPlace(columns, from) && IsPlace(columns, to) && |lines| <= 2
    requires Span(from, to) % 2 == 1
    ensures BoxFor(Anchor(from, to, edgeIndex), lines, nodeRects) == Candidate(Anchor(from, to, edgeIndex), lines, 0.0)
  {
    BoxIsShifted(columns, nodeRects, from, to, edgeIndex, lines);
    PlacesHaveSpan(columns, from, to, edgeIndex);
  }

  /**
   The promise that a found label overlaps no earlier one is not kept, because the check never fires. Two labels
   overlap exactly when their edges have the same span and the heights at which they end up are closer than half
   of both labels together. All of it is known from the places of the nodes and the sizes of the labels.
   */
  lemma OverlapExactly(columns: seq<Column>, nodeRects: seq<Rect>, from: Point, to: Point, i: nat, lines: seq<string>,
                       from': Point, to': Point, k: nat, lines': seq<string>)
    requires OnPlaces(columns, nodeRects) && |lines| <= 2 && |lines'| <= 2
    requires IsPlace(columns, from) && IsPlace(columns, to) && IsPlace(columns, from') && IsPlace(columns, to')
    ensures 0 <= Span(from, to) / 2 < |columns| && 0 <= Span(from', to') / 2 < |columns|
    ensures Overlap(BoxFor(Anchor(from, to, i), lines, nodeRects),
              BoxFor(Anchor(from', to', k), lines', nodeRects)) <==>
              && Span(from, to) == Span(from', to')
              && Close(LabelY(columns, from, to, i, lines), LabelY(columns, from', to', k, lines'), LabelHeight(lines),
                  LabelHeight(lines'))
  {
    BoxIsShifted(columns, nodeRects, from, to, i, lines);
    BoxIsShifted(columns, nodeRects, from', to', k, lines');
    OverlapByCentres(Point(MiddleX(Span(from, to)), LabelY(columns, from, to, i, lines)), lines,
                     Point(MiddleX(Span(from', to')), LabelY(columns, from', to', k, lines')), lines', 0.0, 0.0);
  }

  /** For edges an odd number of columns long the heights are those of the anchors. */
  lemma OddSpansOverlapExactly(columns: seq<Column>, nodeRects: seq<Rect>, from: Point, to: Point, i: nat,
                               lines: seq<string>,
                               from': Point, to': Point, k: nat, lines': seq<string>)
    requires OnPlaces(columns, nodeRects) && |lines| <= 2 && |lines'| <= 2
    requires IsPlace(columns, from) && IsPlace(columns, to) && IsPlace(columns, from') && IsPlace(columns, to')
    requires Span(from, to) % 2 == 1 && Span(from', to') % 2 == 1
    ensures Overlap(BoxFor(Anchor(from, to, i), lines, nodeRects),
              BoxFor(Anchor(from', to', k), lines', nodeRects)) <==>
              && Span(from, to) == Span(from', to')
              && Close(Anchor(from, to, i).y, Anchor(from', to', k).y, LabelHeight(lines), LabelHeight(lines'))
  {
    OverlapExactly(columns, nodeRects, from, to, i, lines, from', to', k, lines');
  }

  /**
   Two forward edges with the same ends: between columns, or with equal heights, their labels end up at one height.
   */
  lemma ParallelLabelsMeet(columns: seq<Column>, from: Point, to: Point, i: nat, lines: seq<string>, k: nat,
                           lines': seq<string>)
    requires 0 <= Span(from, to) / 2 < |columns| && to.x > from.x
    requires Span(from, to) % 2 == 1 || LabelHeight(lines) == LabelHeight(lines')
    ensures LabelY(columns, from, to, i, lines) == LabelY(columns, from, to, k, lines')
    ensures Close(LabelY(columns, from, to, i, lines), LabelY(columns, from, to, k, lines'), LabelHeight(lines),
              LabelHeight(lines'))
  {
  }
}
