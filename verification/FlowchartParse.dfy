/**
 From decoded model output to a graph that can be drawn (parseFlowchartResponse and
 validateFlowchartSourceRef in packages/paseo-adapter/src/flowchart.ts). Values arrive already
 converted to strings; lower-casing, path normalisation and the sensitive-file rule are parameters.
 */
module FlowchartParse {
  import opened Common
  import opened Layering

  /** An entry of the nodes array: a record, or something else. */
  datatype RawNode = OtherValue | NodeRecord(id: string, caption: string, detail: string)

  datatype RawEdge = OtherEdge | EdgeRecord(from: string, to: string, caption: string)

  datatype Node = Node(id: string, caption: string, detail: string)

  datatype Graph = Graph(nodes: seq<Node>, edges: seq<Edge>)

  type Lower = string -> string

  const MAX_NODES := 72
  const MAX_EDGES := 140
  const ID_LENGTH := 80
  const CAPTION_LENGTH := 100
  const DETAIL_LENGTH := 240
  const EDGE_LENGTH := 70
  const EMPTY := "The model returned an empty flowchart. Try refreshing it."

  // ----- Specification -----

  /** The first element of each key, in order. */
  ghost function FirstBy<T, K(!new)>(key: T -> K, s: seq<T>): seq<T> {
    if s == [] then [] else
    var init, last := s[..|s| - 1], s[|s| - 1];
    FirstBy(key, init) + if exists i :: 0 <= i < |init| && key(init[i]) == key(last) then [] else [last]
  }

  ghost function NodeId(): Node -> string {
    (node: Node) => node.id
  }

  ghost function EdgeKey(lower: Lower): Edge -> (string, string, string) {
    (edge: Edge) => (edge.from, edge.to, lower(Trim(edge.caption)))
  }

  predicate ValidNode(raw: RawNode) {
    raw.NodeRecord? && raw.id != "" && raw.caption != ""
  }

  function CleanNode(raw: RawNode): Node
    requires raw.NodeRecord?
  {
    Node(Take(raw.id, ID_LENGTH), Take(raw.caption, CAPTION_LENGTH), Take(raw.detail, DETAIL_LENGTH))
  }

  function CleanNodes(raw: seq<RawNode>): seq<Node> {
    if raw == [] then [] else
    CleanNodes(raw[..|raw| - 1]) + if ValidNode(raw[|raw| - 1]) then [CleanNode(raw[|raw| - 1])] else []
  }

  predicate ValidEdge(raw: RawEdge, ids: set<string>) {
    raw.EdgeRecord? && raw.from in ids && raw.to in ids && raw.from != raw.to
  }

  function CleanEdge(raw: RawEdge): Edge
    requires raw.EdgeRecord?
  {
    Edge(raw.from, raw.to, Take(raw.caption, EDGE_LENGTH))
  }

  function CleanEdges(raw: seq<RawEdge>, ids: set<string>): seq<Edge> {
    if raw == [] then [] else
    CleanEdges(raw[..|raw| - 1], ids) + if ValidEdge(raw[|raw| - 1], ids) then [CleanEdge(raw[|raw| - 1])] else []
  }

  function Ids(nodes: seq<Node>): set<string> {
    set i | 0 <= i < |nodes| :: nodes[i].id
  }

  function IdSeq(nodes: seq<Node>): seq<string> {
    seq(|nodes|, i requires 0 <= i < |nodes| => nodes[i].id)
  }

  // ----- The parser -----

  method CollectNodes(raw: seq<RawNode>) returns (nodes: seq<Node>)
    ensures nodes == CleanNodes(Take(raw, MAX_NODES))
  {
    nodes := [];
    var considered := Take(raw, MAX_NODES);
    for i := 0 to |considered|
      invariant nodes == CleanNodes(considered[..i])
    {
      assert considered[..i + 1][..i] == considered[..i];
      if ValidNode(considered[i]) { nodes := nodes + [CleanNode(considered[i])]; }
    }
    assert considered[..|considered|] == considered;
  }

  method UniqueNodes(nodes: seq<Node>) returns (unique: seq<Node>, seen: set<string>)
    ensures unique == FirstBy(NodeId(), nodes)
    ensures seen == Ids(nodes)
  {
    unique, seen := [], {};
    for i := 0 to |nodes|
      invariant unique == FirstBy(NodeId(), nodes[..i]) && seen == Ids(nodes[..i])
    {
      FirstByNext(NodeId(), nodes, i);
      assert nodes[..i + 1] == nodes[..i] + [nodes[i]];
      assert nodes[i].id in seen <==> exists j :: 0 <= j < i && NodeId()(nodes[j]) == NodeId()(nodes[i]) by {
        assert forall j :: 0 <= j < i ==> nodes[..i][j] == nodes[j];
      }
      IdsNext(nodes[..i], nodes[i]);
      if nodes[i].id !in seen {
        unique := unique + [nodes[i]];
        seen := seen + {nodes[i].id};
      }
    }
    assert nodes[..|nodes|] == nodes;
  }

  lemma IdsNext(nodes: seq<Node>, node: Node)
    ensures Ids(nodes + [node]) == Ids(nodes) + {node.id}
  {
    forall id | id in Ids(nodes) + {node.id} ensures id in Ids(nodes + [node]) {
      if id in Ids(nodes) {
        var j :| 0 <= j < |nodes| && nodes[j].id == id;
        assert (nodes + [node])[j].id == id;
      } else {
        assert (nodes + [node])[|nodes|].id == id;
      }
    }
  }

  lemma FirstByNext<T, K(!new)>(key: T -> K, s: seq<T>, i: nat)
    requires i < |s|
    ensures FirstBy(key, s[..i + 1])
         == FirstBy(key, s[..i]) + if exists j :: 0 <= j < i && key(s[j]) == key(s[i]) then [] else [s[i]]
  {
    var t := s[..i + 1];
    assert t[..|t| - 1] == s[..i] && t[|t| - 1] == s[i];
    assert (exists j :: 0 <= j < |s[..i]| && key(s[..i][j]) == key(s[i])) <==>
        exists j :: 0 <= j < i && key(s[j]) == key(s[i]) by {
      assert forall j :: 0 <= j < i ==> s[..i][j] == s[j];
    }
  }

  method CollectEdges(raw: seq<RawEdge>, seen: set<string>) returns (edges: seq<Edge>)
    ensures edges == CleanEdges(Take(raw, MAX_EDGES), seen)
  {
    edges := [];
    var considered := Take(raw, MAX_EDGES);
    for i := 0 to |considered|
      invariant edges == CleanEdges(considered[..i], seen)
    {
      assert considered[..i + 1][..i] == considered[..i];
      if ValidEdge(considered[i], seen) { edges := edges + [CleanEdge(considered[i])]; }
    }
    assert considered[..|considered|] == considered;
  }

  method UniqueEdges(edges: seq<Edge>, lower: Lower) returns (unique: seq<Edge>)
    ensures unique == FirstBy(EdgeKey(lower), edges)
  {
    unique := [];
    var seenEdges: set<(string, string, string)> := {};
    for i := 0 to |edges|
      invariant unique == FirstBy(EdgeKey(lower), edges[..i])
      invariant forall k :: k in seenEdges <==> exists j :: 0 <= j < i && EdgeKey(lower)(edges[j]) == k
    {
      FirstByNext(EdgeKey(lower), edges, i);
      var key := (edges[i].from, edges[i].to, lower(Trim(edges[i].caption)));
      if key !in seenEdges {
        seenEdges := seenEdges + {key};
        unique := unique + [edges[i]];
      }
    }
    assert edges[..|edges|] == edges;
  }

  ghost function ParsedNodes(rawNodes: seq<RawNode>): seq<Node> {
    FirstBy(NodeId(), CleanNodes(Take(rawNodes, MAX_NODES)))
  }

  ghost function ParsedEdges(rawNodes: seq<RawNode>, rawEdges: seq<RawEdge>, lower: Lower): seq<Edge> {
    FirstBy(EdgeKey(lower), CleanEdges(Take(rawEdges, MAX_EDGES), Ids(CleanNodes(Take(rawNodes, MAX_NODES)))))
  }

  ghost predicate HasValidNode(rawNodes: seq<RawNode>) {
    exists i :: 0 <= i < |Take(rawNodes, MAX_NODES)| && ValidNode(Take(rawNodes, MAX_NODES)[i])
  }

  method Parse(rawNodes: seq<RawNode>, rawEdges: seq<RawEdge>, lower: Lower) returns (r: Result<Graph, string>)
    ensures r == if HasValidNode(rawNodes) then Ok(Graph(ParsedNodes(rawNodes), ParsedEdges(rawNodes, rawEdges, lower)))
              else Err(EMPTY)
    ensures r.Ok? ==> WellFormed(r.value, lower)
  {
    var nodes := CollectNodes(rawNodes);
    var unique, seen := UniqueNodes(nodes);
    EmptyExactlyWhenNoValidNode(rawNodes);
    if unique == [] { return Err(EMPTY); }
    var edges := CollectEdges(rawEdges, seen);
    var uniqueEdges := UniqueEdges(edges, lower);
    ParsedIsWellFormed(rawNodes, rawEdges, lower);
    return Ok(Graph(unique, uniqueEdges));
  }

  // ----- What the parser promises -----

  /** A graph the drawing code can rely on. */
  ghost predicate WellFormed(graph: Graph, lower: Lower) {
    && 0 < |graph.nodes| <= MAX_NODES && |graph.edges| <= MAX_EDGES
    && NoRepeats(IdSeq(graph.nodes))
    && (forall i :: 0 <= i < |graph.nodes| ==>
        0 < |graph.nodes[i].id| <= ID_LENGTH && 0 < |graph.nodes[i].caption| <= CAPTION_LENGTH)
    && EndpointsKnown(IdSeq(graph.nodes), graph.edges)
    && (forall i :: 0 <= i < |graph.edges| ==> graph.edges[i].from != graph.edges[i].to)
    && (forall i, j :: 0 <= i < j < |graph.edges| ==> EdgeKey(lower)(graph.edges[i]) != EdgeKey(lower)(graph.edges[j]))
  }

  /** x is the first element of s with its key. */
  ghost predicate FirstWithKey<T, K(!new)>(key: T -> K, s: seq<T>, x: T) {
    exists i :: 0 <= i < |s| && s[i] == x && NoneBefore(key, s, i)
  }

  ghost predicate NoneBefore<T, K(!new)>(key: T -> K, s: seq<T>, i: nat)
    requires i < |s|
  {
    forall j :: 0 <= j < i ==> key(s[j]) != key(s[i])
  }

  /** FirstBy keeps exactly the first element of each key, keeps every key, and keeps none twice. */
  lemma {:induction false} FirstByKeepsFirsts<T(!new), K(!new)>(key: T -> K, s: seq<T>)
    ensures |FirstBy(key, s)| <= |s|
    ensures forall x :: x in FirstBy(key, s) <==> FirstWithKey(key, s, x)
    ensures forall i, j :: 0 <= i < j < |FirstBy(key, s)| ==> key(FirstBy(key, s)[i]) != key(FirstBy(key, s)[j])
  {
    if s != [] {
      var init, last := s[..|s| - 1], s[|s| - 1];
      FirstByKeepsFirsts(key, init);
      forall x ensures x in FirstBy(key, s) <==> FirstWithKey(key, s, x) {
        FirstWithKeySnoc(key, s, x);
      }
      forall i | 0 <= i < |FirstBy(key, init)|
          ensures exists j :: 0 <= j < |init| && key(init[j]) == key(FirstBy(key, init)[i]) {
        assert FirstBy(key, init)[i] in FirstBy(key, init);
      }
    }
  }

  lemma FirstWithKeySnoc<T(!new), K(!new)>(key: T -> K, s: seq<T>, x: T)
    requires s != []
    ensures FirstWithKey(key, s, x) <==>
              FirstWithKey(key, s[..|s| - 1], x) || (x == s[|s| - 1] && NoneBefore(key, s, |s| - 1))
  {
    var init := s[..|s| - 1];
    if FirstWithKey(key, init, x) {
      var i :| 0 <= i < |init| && init[i] == x && NoneBefore(key, init, i);
      assert forall j :: 0 <= j < i ==> init[j] == s[j];
      assert s[i] == x && NoneBefore(key, s, i);
    }
    if FirstWithKey(key, s, x) {
      var i :| 0 <= i < |s| && s[i] == x && NoneBefore(key, s, i);
      if i < |init| {
        assert forall j :: 0 <= j <= i ==> init[j] == s[j];
        assert init[i] == x && NoneBefore(key, init, i);
      }
    }
  }

  lemma {:induction false} FirstByKeepsKeys<T(!new), K(!new)>(key: T -> K, s: seq<T>, i: nat)
    requires i < |s|
    ensures exists k :: 0 <= k < |FirstBy(key, s)| && key(FirstBy(key, s)[k]) == key(s[i])
  {
    var init, last := s[..|s| - 1], s[|s| - 1];
    if i < |init| {
      FirstByKeepsKeys(key, init, i);
      var k :| 0 <= k < |FirstBy(key, init)| && key(FirstBy(key, init)[k]) == key(init[i]);
      assert FirstBy(key, s)[k] == FirstBy(key, init)[k];
    } else if exists j :: 0 <= j < |init| && key(init[j]) == key(last) {
      var j :| 0 <= j < |init| && key(init[j]) == key(last);
      FirstByKeepsKeys(key, init, j);
      var k :| 0 <= k < |FirstBy(key, init)| && key(FirstBy(key, init)[k]) == key(init[j]);
      assert FirstBy(key, s)[k] == FirstBy(key, init)[k];
    } else {
      assert FirstBy(key, s)[|FirstBy(key, init)|] == last;
    }
  }

  lemma {:induction false} CleanNodesAre(raw: seq<RawNode>)
    ensures |CleanNodes(raw)| <= |raw|
    ensures forall n :: n in CleanNodes(raw) <==>
              exists i :: 0 <= i < |raw| && ValidNode(raw[i]) && CleanNode(raw[i]) == n
  {
    if raw != [] {
      CleanNodesAre(raw[..|raw| - 1]);
      assert raw == raw[..|raw| - 1] + [raw[|raw| - 1]];
    }
  }

  lemma {:induction false} CleanEdgesAre(raw: seq<RawEdge>, ids: set<string>)
    ensures |CleanEdges(raw, ids)| <= |raw|
    ensures forall e :: e in CleanEdges(raw, ids) <==>
              exists i :: 0 <= i < |raw| && ValidEdge(raw[i], ids) && CleanEdge(raw[i]) == e
  {
    if raw != [] {
      CleanEdgesAre(raw[..|raw| - 1], ids);
      assert raw == raw[..|raw| - 1] + [raw[|raw| - 1]];
    }
  }

  lemma EmptyExactlyWhenNoValidNode(rawNodes: seq<RawNode>)
    ensures ParsedNodes(rawNodes) == [] <==> !HasValidNode(rawNodes)
  {
    var considered := Take(rawNodes, MAX_NODES);
    var clean := CleanNodes(considered);
    CleanNodesAre(considered);
    FirstByKeepsFirsts(NodeId(), clean);
    if clean != [] {
      FirstByKeepsKeys(NodeId(), clean, 0);
      assert clean[0] in clean;
    }
    if HasValidNode(rawNodes) {
      var i :| 0 <= i < |considered| && ValidNode(considered[i]);
      assert CleanNode(considered[i]) in clean;
    }
  }

  /** The ids the edge filter knows are exactly the ids of the nodes that are kept. */
  lemma KeptIds(rawNodes: seq<RawNode>, id: string)
    ensures id in Ids(CleanNodes(Take(rawNodes, MAX_NODES))) <==> id in IdSeq(ParsedNodes(rawNodes))
  {
    var clean, kept := CleanNodes(Take(rawNodes, MAX_NODES)), ParsedNodes(rawNodes);
    FirstByKeepsFirsts(NodeId(), clean);
    if id in Ids(clean) {
      var i :| 0 <= i < |clean| && clean[i].id == id;
      FirstByKeepsKeys(NodeId(), clean, i);
      var k :| 0 <= k < |kept| && NodeId()(kept[k]) == NodeId()(clean[i]);
      assert IdSeq(kept)[k] == id;
    }
    if id in IdSeq(kept) {
      var k :| 0 <= k < |kept| && kept[k].id == id;
      assert kept[k] in kept;
      var i :| 0 <= i < |clean| && clean[i] == kept[k] && NoneBefore(NodeId(), clean, i);
      assert clean[i].id == id;
    }
  }

  lemma ParsedNodesAreGood(rawNodes: seq<RawNode>)
    ensures |ParsedNodes(rawNodes)| <= MAX_NODES && NoRepeats(IdSeq(ParsedNodes(rawNodes)))
    ensures forall n :: n in ParsedNodes(rawNodes) ==> 0 < |n.id| <= ID_LENGTH && 0 < |n.caption| <= CAPTION_LENGTH
  {
    var considered, nodes := Take(rawNodes, MAX_NODES), ParsedNodes(rawNodes);
    CleanNodesAre(considered);
    FirstByKeepsFirsts(NodeId(), CleanNodes(considered));
    forall i, j | 0 <= i < j < |nodes| ensures nodes[i].id != nodes[j].id {
      assert NodeId()(nodes[i]) != NodeId()(nodes[j]);
    }
    forall n | n in nodes ensures n in CleanNodes(considered) {
      assert FirstWithKey(NodeId(), CleanNodes(considered), n);
    }
  }

  lemma ParsedEdgesAreGood(rawNodes: seq<RawNode>, rawEdges: seq<RawEdge>, lower: Lower)
    ensures |ParsedEdges(rawNodes, rawEdges, lower)| <= MAX_EDGES
    ensures forall e :: e in ParsedEdges(rawNodes, rawEdges, lower) ==>
              e.from != e.to && e.from in IdSeq(ParsedNodes(rawNodes)) && e.to in IdSeq(ParsedNodes(rawNodes))
  {
    var ids, considered := Ids(CleanNodes(Take(rawNodes, MAX_NODES))), Take(rawEdges, MAX_EDGES);
    CleanEdgesAre(considered, ids);
    FirstByKeepsFirsts(EdgeKey(lower), CleanEdges(considered, ids));
    forall e | e in ParsedEdges(rawNodes, rawEdges, lower) ensures e in CleanEdges(considered, ids) {
      assert FirstWithKey(EdgeKey(lower), CleanEdges(considered, ids), e);
    }
    forall id ensures id in ids <==> id in IdSeq(ParsedNodes(rawNodes)) {
      KeptIds(rawNodes, id);
    }
  }

  /**
   Whatever the model returns, what is kept is a graph with distinct ids, known endpoints, no loops at a node and no
   edge twice.
   */
  lemma ParsedIsWellFormed(rawNodes: seq<RawNode>, rawEdges: seq<RawEdge>, lower: Lower)
    requires HasValidNode(rawNodes)
    ensures WellFormed(Graph(ParsedNodes(rawNodes), ParsedEdges(rawNodes, rawEdges, lower)), lower)
  {
    EmptyExactlyWhenNoValidNode(rawNodes);
    ParsedNodesAreGood(rawNodes);
    ParsedEdgesAreGood(rawNodes, rawEdges, lower);
    var ids, considered := Ids(CleanNodes(Take(rawNodes, MAX_NODES))), Take(rawEdges, MAX_EDGES);
    FirstByKeepsFirsts(EdgeKey(lower), CleanEdges(considered, ids));
    var edges := ParsedEdges(rawNodes, rawEdges, lower);
    forall i | 0 <= i < |edges| ensures edges[i] in edges {}
    var nodes := ParsedNodes(rawNodes);
    forall i | 0 <= i < |nodes| ensures nodes[i] in nodes {}
  }

  /**
   Among valid records with the same shortened id, the first one becomes the node, and every valid id is represented.
   */
  lemma FirstNodeWins(rawNodes: seq<RawNode>, i: nat)
    requires i < |Take(rawNodes, MAX_NODES)| && ValidNode(Take(rawNodes, MAX_NODES)[i])
    requires forall j :: 0 <= j < i && ValidNode(rawNodes[j]) ==>
               Take(rawNodes[j].id, ID_LENGTH) != Take(rawNodes[i].id, ID_LENGTH)
    ensures CleanNode(rawNodes[i]) in ParsedNodes(rawNodes)
  {
    var considered := Take(rawNodes, MAX_NODES);
    var clean := CleanNodes(considered);
    var k := CleanIndex(considered, i);
    FirstByKeepsFirsts(NodeId(), clean);
    CleanBefore(considered, i);
    forall j | 0 <= j < k ensures NodeId()(clean[j]) != NodeId()(clean[k]) {
      assert clean[j] == CleanNodes(considered[..i])[j];
      assert CleanNodes(considered[..i])[j] in CleanNodes(considered[..i]);
      CleanNodesAre(considered[..i]);
    }
    assert NoneBefore(NodeId(), clean, k);
    assert FirstWithKey(NodeId(), clean, clean[k]);
  }

  function CleanIndex(raw: seq<RawNode>, i: nat): nat
    requires i <= |raw|
  {
    |CleanNodes(raw[..i])|
  }

  /** The nodes of the records before record i come first, and its own node next. */
  lemma {:induction false} CleanBefore(raw: seq<RawNode>, i: nat)
    requires i < |raw| && ValidNode(raw[i])
    ensures CleanIndex(raw, i) < |CleanNodes(raw)| && CleanNodes(raw)[CleanIndex(raw, i)] == CleanNode(raw[i])
    ensures forall j :: 0 <= j < CleanIndex(raw, i) ==> CleanNodes(raw)[j] == CleanNodes(raw[..i])[j]
  {
    var init := raw[..|raw| - 1];
    if i < |init| {
      CleanBefore(init, i);
      assert init[..i] == raw[..i];
    }
  }

  /**
   Ids of nodes are cut to 80 characters, but those of edges are not: an edge that names two listed
   nodes is kept, as itself or as an earlier edge with the same key, exactly when neither name was cut.
   */
  lemma EdgeKeptExactlyWhenNamesAreShort(rawNodes: seq<RawNode>, rawEdges: seq<RawEdge>, lower: Lower, a: nat, b: nat,
                                         k: nat)
    requires a < |Take(rawNodes, MAX_NODES)| && b < |Take(rawNodes, MAX_NODES)| && ValidNode(rawNodes[a])
               && ValidNode(rawNodes[b])
    requires k < |Take(rawEdges, MAX_EDGES)| && rawEdges[k].EdgeRecord?
    requires rawEdges[k].from == rawNodes[a].id && rawEdges[k].to == rawNodes[b].id && rawNodes[a].id != rawNodes[b].id
    ensures (exists e :: e in ParsedEdges(rawNodes, rawEdges, lower)
              && EdgeKey(lower)(e) == EdgeKey(lower)(CleanEdge(rawEdges[k])))
       <==> |rawNodes[a].id| <= ID_LENGTH && |rawNodes[b].id| <= ID_LENGTH
  {
    var ids, considered := Ids(CleanNodes(Take(rawNodes, MAX_NODES))), Take(rawEdges, MAX_EDGES);
    var clean := CleanEdges(considered, ids);
    CleanEdgesAre(considered, ids);
    KnownExactlyWhenShort(rawNodes, a);
    KnownExactlyWhenShort(rawNodes, b);
    FirstByKeepsFirsts(EdgeKey(lower), clean);
    if |rawNodes[a].id| <= ID_LENGTH && |rawNodes[b].id| <= ID_LENGTH {
      assert ValidEdge(considered[k], ids) && CleanEdge(considered[k]) in clean;
      var i :| 0 <= i < |clean| && clean[i] == CleanEdge(considered[k]);
      FirstByKeepsKeys(EdgeKey(lower), clean, i);
      var m :| 0 <= m < |FirstBy(EdgeKey(lower), clean)|
          && EdgeKey(lower)(FirstBy(EdgeKey(lower), clean)[m]) == EdgeKey(lower)(clean[i]);
      assert FirstBy(EdgeKey(lower), clean)[m] in ParsedEdges(rawNodes, rawEdges, lower);
    }
    forall e | e in ParsedEdges(rawNodes, rawEdges, lower) ensures e.from in ids && e.to in ids {
      assert FirstWithKey(EdgeKey(lower), clean, e);
      assert e in clean;
    }
  }

  lemma KnownExactlyWhenShort(rawNodes: seq<RawNode>, a: nat)
    requires a < |Take(rawNodes, MAX_NODES)| && ValidNode(rawNodes[a])
    ensures rawNodes[a].id in Ids(CleanNodes(Take(rawNodes, MAX_NODES))) <==> |rawNodes[a].id| <= ID_LENGTH
  {
    var considered := Take(rawNodes, MAX_NODES);
    var clean := CleanNodes(considered);
    CleanNodesAre(considered);
    if |rawNodes[a].id| <= ID_LENGTH {
      assert CleanNode(considered[a]) in clean;
      var i :| 0 <= i < |clean| && clean[i] == CleanNode(considered[a]);
      assert clean[i].id == rawNodes[a].id;
    }
    forall i | 0 <= i < |clean| ensures |clean[i].id| <= ID_LENGTH {
      assert clean[i] in clean;
    }
  }

  // ----- Source links -----

  /** What a model may say about a node's source. */
  datatype RawRef = RawRef(file: Option<string>, related: seq<string>, line: Option<int>)

  datatype SourceRef = SourceRef(file: Option<string>, related: seq<string>, line: Option<int>)

  /** The files the generator read, with the normalisation of paths and the sensitive-file rule. */
  datatype SourceRules = SourceRules(files: set<string>, normalise: string -> string, sensitive: string -> bool)

  predicate Linkable(rules: SourceRules, file: string) {
    file != "" && file in rules.files && !rules.sensitive(file)
  }

  function Known(rules: SourceRules, candidate: string): Option<string> {
    var normalised := rules.normalise(candidate);
    if normalised in rules.files && !rules.sensitive(normalised) then Some(normalised) else None
  }

  function KnownOthers(rules: SourceRules, candidates: seq<string>, file: Option<string>): seq<string> {
    if candidates == [] then [] else
    var last := Known(rules, candidates[|candidates| - 1]);
    KnownOthers(rules, candidates[..|candidates| - 1], file)
    + if last.Some? && last.value != "" && last != file then [last.value] else []
  }

  /** An empty file name counts as none. */
  function ValidateRef(rules: SourceRules, value: RawRef): SourceRef {
    var file := if value.file.Some? then Known(rules, value.file.value) else None;
    var named := file.Some? && file.value != "";
    SourceRef(
      if named then file else None,
      Take(Distinct(KnownOthers(rules, value.related, file)), 6),
      if named && value.line.Some? && 0 < value.line.value <= 9007199254740991 then value.line else None)
  }

  lemma {:induction false} KnownOthersAre(rules: SourceRules, candidates: seq<string>, file: Option<string>)
    ensures forall f :: f in KnownOthers(rules, candidates, file) ==> Linkable(rules, f) && Some(f) != file
  {
    if candidates != [] {
      KnownOthersAre(rules, candidates[..|candidates| - 1], file);
    }
  }

  /**
   Nothing a model writes makes a link to a file the generator did not read or must not show; related files are
   distinct, at most six, and not the file itself; a line number needs a file.
   */
  lemma LinksAreSafe(rules: SourceRules, value: RawRef)
    ensures var ref := ValidateRef(rules, value);
            && (ref.file.Some? ==> Linkable(rules, ref.file.value))
            && |ref.related| <= 6 && NoRepeats(ref.related)
            && (forall i :: 0 <= i < |ref.related| ==>
                Linkable(rules, ref.related[i]) && Some(ref.related[i]) != ref.file)
            && (ref.line.Some? ==> ref.file.Some? && ref.line.value > 0)
  {
    var file := if value.file.Some? then Known(rules, value.file.value) else None;
    var others := KnownOthers(rules, value.related, file);
    KnownOthersAre(rules, value.related, file);
    DistinctSpec(others);
    forall i | 0 <= i < |Distinct(others)| ensures Distinct(others)[i] in others {
      assert Distinct(others)[i] in Distinct(others);
    }
  }
}
