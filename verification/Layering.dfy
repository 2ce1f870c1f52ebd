/**
 Layers of the flowchart (drawGraph in packages/paseo-adapter/src/flowchart-ui.ts): depths by
 repeated relaxation, which for a graph without cycles are longest-path depths.
 */
module Layering {
  import opened Common

  datatype Edge = Edge(from: string, to: string, caption: string)

  type Depths = map<string, nat>

  function Depth(d: Depths, id: string): nat {
    if id in d then d[id] else 0
  }

  /** The depth an edge asks of its target, capped below the number of nodes. */
  function Wanted(d: Depths, e: Edge, n: nat): int {
    Min(n - 1, Depth(d, e.from) + 1)
  }

  function RelaxEdge(d: Depths, e: Edge, n: nat): Depths {
    if Wanted(d, e, n) > Depth(d, e.to) then d[e.to := Wanted(d, e, n)] else d
  }

  /** One pass over the edges, in order. */
  function RelaxPass(d: Depths, edges: seq<Edge>, n: nat): Depths {
    if edges == [] then d else RelaxEdge(RelaxPass(d, edges[..|edges| - 1], n), edges[|edges| - 1], n)
  }

  function Start(nodes: seq<string>): Depths {
    map id | id in nodes :: 0
  }

  function Passes(nodes: seq<string>, edges: seq<Edge>, k: nat): Depths {
    if k == 0 then Start(nodes) else RelaxPass(Passes(nodes, edges, k - 1), edges, |nodes|)
  }

  /** The depths after as many passes as there are nodes. */
  function FinalDepths(nodes: seq<string>, edges: seq<Edge>): Depths {
    Passes(nodes, edges, |nodes|)
  }

  lemma {:induction false} StablePasses(nodes: seq<string>, edges: seq<Edge>, k: nat, m: nat)
    requires k <= m && Passes(nodes, edges, k + 1) == Passes(nodes, edges, k)
    ensures Passes(nodes, edges, m) == Passes(nodes, edges, k)
  {
    if k < m {
      StablePasses(nodes, edges, k, m - 1);
    }
  }

  /** The loop, which stops early when a pass changes nothing. */
  method ComputeDepths(nodes: seq<string>, edges: seq<Edge>) returns (depths: Depths)
    ensures depths == FinalDepths(nodes, edges)
  {
    depths := map id | id in nodes :: 0;
    var pass := 0;
    while pass < |nodes|
      invariant 0 <= pass <= |nodes| && depths == Passes(nodes, edges, pass)
    {
      var changed := false;
      for i := 0 to |edges|
        invariant depths == RelaxPass(Passes(nodes, edges, pass), edges[..i], |nodes|)
        invariant !changed ==> depths == Passes(nodes, edges, pass)
      {
        assert edges[..i + 1][..i] == edges[..i];
        var next := Min(|nodes| - 1, Depth(depths, edges[i].from) + 1);
        if next > Depth(depths, edges[i].to) {
          depths := depths[edges[i].to := next];
          changed := true;
        }
      }
      assert edges[..|edges|] == edges;
      if !changed {
        StablePasses(nodes, edges, pass, |nodes|);
        return;
      }
      pass := pass + 1;
    }
  }

  // ----- Any graph: depths stay in range -----

  ghost predicate InRange(d: Depths, n: nat) {
    forall id :: id in d ==> d[id] == 0 || d[id] <= n - 1
  }

  lemma {:induction false} PassInRange(d: Depths, edges: seq<Edge>, n: nat)
    requires InRange(d, n)
    ensures InRange(RelaxPass(d, edges, n), n)
  {
    if edges != [] {
      PassInRange(d, edges[..|edges| - 1], n);
    }
  }

  /** For any graph, cycles included, every depth lies between 0 and the number of nodes less one. */
  lemma {:induction false} DepthsInRange(nodes: seq<string>, edges: seq<Edge>, k: nat)
    ensures InRange(Passes(nodes, edges, k), |nodes|)
  {
    if k > 0 {
      DepthsInRange(nodes, edges, k - 1);
      PassInRange(Passes(nodes, edges, k - 1), edges, |nodes|);
    }
  }

  // ----- Walks -----

  ghost predicate HasEdge(edges: seq<Edge>, a: string, b: string) {
    exists i :: 0 <= i < |edges| && edges[i].from == a && edges[i].to == b
  }

  /** The step from position i of a walk to the next one is an edge. */
  ghost predicate StepAlong(edges: seq<Edge>, walk: seq<string>, i: int)
    requires 0 <= i < |walk| - 1
  {
    HasEdge(edges, walk[i], walk[i + 1])
  }

  /** A non-empty sequence of nodes in which each leads to the next; its length is the number of edges. */
  ghost predicate Walk(nodes: seq<string>, edges: seq<Edge>, walk: seq<string>) {
    && walk != []
    && (forall i :: 0 <= i < |walk| ==> walk[i] in nodes)
    && (forall i {:trigger StepAlong(edges, walk, i)} :: 0 <= i < |walk| - 1 ==> StepAlong(edges, walk, i))
  }

  ghost predicate WalkTo(nodes: seq<string>, edges: seq<Edge>, walk: seq<string>, id: string) {
    Walk(nodes, edges, walk) && walk[|walk| - 1] == id
  }

  /** No walk of at least one edge returns to where it started. */
  ghost predicate Acyclic(nodes: seq<string>, edges: seq<Edge>) {
    forall walk :: Walk(nodes, edges, walk) && |walk| > 1 ==> walk[0] != walk[|walk| - 1]
  }

  /** What the parser guarantees of a graph. */
  ghost predicate EndpointsKnown(nodes: seq<string>, edges: seq<Edge>) {
    forall i :: 0 <= i < |edges| ==> edges[i].from in nodes && edges[i].to in nodes
  }

  lemma WalkPart(nodes: seq<string>, edges: seq<Edge>, walk: seq<string>, lo: nat, hi: nat)
    requires Walk(nodes, edges, walk) && lo < hi <= |walk|
    ensures Walk(nodes, edges, walk[lo..hi])
  {
    var part := walk[lo..hi];
    forall i | 0 <= i < |part| - 1 ensures StepAlong(edges, part, i) {
      assert StepAlong(edges, walk, lo + i);
    }
  }

  lemma WalkExtend(nodes: seq<string>, edges: seq<Edge>, walk: seq<string>, from: string, to: string)
    requires WalkTo(nodes, edges, walk, from) && HasEdge(edges, from, to) && to in nodes
    ensures WalkTo(nodes, edges, walk + [to], to)
  {
    var longer := walk + [to];
    forall i | 0 <= i < |longer| - 1 ensures StepAlong(edges, longer, i) {
      if i < |walk| - 1 { assert StepAlong(edges, walk, i); }
    }
  }

  lemma AcyclicWalksDoNotRepeat(nodes: seq<string>, edges: seq<Edge>, walk: seq<string>)
    requires Acyclic(nodes, edges) && Walk(nodes, edges, walk)
    ensures NoRepeats(walk)
  {
    forall i, j | 0 <= i < j < |walk| ensures walk[i] != walk[j] {
      WalkPart(nodes, edges, walk, i, j + 1);
      var part := walk[i..j + 1];
      assert part[0] == walk[i] && part[|part| - 1] == walk[j];
    }
  }

  /** Without cycles a walk visits no node twice, so it is shorter than the number of nodes. */
  lemma AcyclicWalksAreShort(nodes: seq<string>, edges: seq<Edge>, walk: seq<string>)
    requires Acyclic(nodes, edges) && Walk(nodes, edges, walk)
    ensures |walk| <= |nodes|
  {
    AcyclicWalksDoNotRepeat(nodes, edges, walk);
    PigeonHole(walk, set id | id in nodes);
    SetOfSequence(nodes);
  }

  // ----- Acyclic graphs: every depth is reached by a walk -----

  ghost predicate Reached(nodes: seq<string>, edges: seq<Edge>, id: string, depth: nat) {
    exists walk :: WalkTo(nodes, edges, walk, id) && |walk| == depth + 1
  }

  ghost predicate AllReached(nodes: seq<string>, edges: seq<Edge>, d: Depths) {
    && (forall id :: id in d <==> id in nodes)
    && (forall id :: id in d ==> Reached(nodes, edges, id, d[id]))
  }

  /** The cap never bites: what an edge asks for is one more than the depth of its source. */
  lemma CapNeverBites(nodes: seq<string>, edges: seq<Edge>, d: Depths, e: Edge)
    requires Acyclic(nodes, edges) && AllReached(nodes, edges, d)
    requires HasEdge(edges, e.from, e.to) && e.from in nodes && e.to in nodes
    ensures Wanted(d, e, |nodes|) == Depth(d, e.from) + 1
    ensures Reached(nodes, edges, e.to, Depth(d, e.from) + 1)
  {
    assert Reached(nodes, edges, e.from, d[e.from]);
    var walk :| WalkTo(nodes, edges, walk, e.from) && |walk| == d[e.from] + 1;
    WalkExtend(nodes, edges, walk, e.from, e.to);
    AcyclicWalksAreShort(nodes, edges, walk + [e.to]);
  }

  lemma RelaxReached(nodes: seq<string>, edges: seq<Edge>, d: Depths, e: Edge)
    requires Acyclic(nodes, edges) && AllReached(nodes, edges, d)
    requires HasEdge(edges, e.from, e.to) && e.from in nodes && e.to in nodes
    ensures AllReached(nodes, edges, RelaxEdge(d, e, |nodes|))
  {
    CapNeverBites(nodes, edges, d, e);
  }

  lemma EdgeIsKnown(nodes: seq<string>, edges: seq<Edge>, k: nat)
    requires EndpointsKnown(nodes, edges) && k < |edges|
    ensures HasEdge(edges, edges[k].from, edges[k].to) && edges[k].from in nodes && edges[k].to in nodes
  {
  }

  lemma {:induction false} PassReached(nodes: seq<string>, edges: seq<Edge>, d: Depths, k: nat)
    requires Acyclic(nodes, edges) && EndpointsKnown(nodes, edges) && AllReached(nodes, edges, d) && k <= |edges|
    ensures AllReached(nodes, edges, RelaxPass(d, edges[..k], |nodes|))
  {
    if k == 0 {
      assert RelaxPass(d, edges[..k], |nodes|) == d;
    } else {
      var before := RelaxPass(d, edges[..k - 1], |nodes|);
      PassReached(nodes, edges, d, k - 1);
      EdgeIsKnown(nodes, edges, k - 1);
      RelaxReached(nodes, edges, before, edges[k - 1]);
      assert RelaxPass(d, edges[..k], |nodes|) == RelaxEdge(before, edges[k - 1], |nodes|) by {
        PassPrefix(d, edges, k - 1, |nodes|);
      }
    }
  }

  lemma PassPrefix(d: Depths, edges: seq<Edge>, k: nat, n: nat)
    requires k < |edges|
    ensures RelaxPass(d, edges[..k + 1], n) == RelaxEdge(RelaxPass(d, edges[..k], n), edges[k], n)
  {
    assert edges[..k + 1][..k] == edges[..k];
  }

  lemma {:induction false} PassesReached(nodes: seq<string>, edges: seq<Edge>, k: nat)
    requires Acyclic(nodes, edges) && EndpointsKnown(nodes, edges)
    ensures AllReached(nodes, edges, Passes(nodes, edges, k))
  {
    if k == 0 {
      forall id | id in nodes ensures Reached(nodes, edges, id, 0) {
        assert WalkTo(nodes, edges, [id], id);
      }
    } else {
      PassesReached(nodes, edges, k - 1);
      assert edges[..|edges|] == edges;
      PassReached(nodes, edges, Passes(nodes, edges, k - 1), |edges|);
    }
  }

  // ----- Any graph: after k passes no walk of k edges is underestimated -----

  lemma {:induction false} PassGrows(d: Depths, edges: seq<Edge>, n: nat, id: string)
    ensures Depth(d, id) <= Depth(RelaxPass(d, edges, n), id)
  {
    if edges != [] {
      PassGrows(d, edges[..|edges| - 1], n, id);
    }
  }

  /** After a pass, every edge's target is at least as deep as the edge asked for before it. */
  lemma {:induction false} PassHonours(d: Depths, edges: seq<Edge>, n: nat, i: nat)
    requires i < |edges|
    ensures Wanted(d, edges[i], n) <= Depth(RelaxPass(d, edges, n), edges[i].to)
  {
    var init := edges[..|edges| - 1];
    if i < |init| {
      PassHonours(d, init, n, i);
      assert init[i] == edges[i];
    } else {
      PassGrows(d, init, n, edges[i].from);
    }
  }

  lemma {:induction false} WalksCounted(nodes: seq<string>, edges: seq<Edge>, k: nat, walk: seq<string>)
    requires Walk(nodes, edges, walk) && |walk| <= k + 1
    ensures Min(|nodes| - 1, |walk| - 1) <= Depth(Passes(nodes, edges, k), walk[|walk| - 1])
  {
    if |walk| > 1 {
      var n := |walk| - 1;
      WalkPart(nodes, edges, walk, 0, n);
      assert walk[0..n][n - 1] == walk[n - 1];
      WalksCounted(nodes, edges, k - 1, walk[0..n]);
      assert StepAlong(edges, walk, n - 1);
      var i :| 0 <= i < |edges| && edges[i].from == walk[n - 1] && edges[i].to == walk[n];
      PassHonours(Passes(nodes, edges, k - 1), edges, |nodes|, i);
    }
  }

  // ----- The main results -----

  /** depth is the number of edges of a longest walk to id. */
  ghost predicate LongestWalk(nodes: seq<string>, edges: seq<Edge>, id: string, depth: nat) {
    && (exists walk :: WalkTo(nodes, edges, walk, id) && |walk| - 1 == depth)
    && (forall walk :: WalkTo(nodes, edges, walk, id) ==> |walk| - 1 <= depth)
  }

  /** For a graph without cycles the relaxation computes longest-path depths, for every node. */
  lemma DepthsAreLongestWalks(nodes: seq<string>, edges: seq<Edge>, id: string)
    requires Acyclic(nodes, edges) && EndpointsKnown(nodes, edges) && id in nodes
    ensures LongestWalk(nodes, edges, id, Depth(FinalDepths(nodes, edges), id))
  {
    var d := FinalDepths(nodes, edges);
    PassesReached(nodes, edges, |nodes|);
    assert Reached(nodes, edges, id, d[id]);
    forall walk | WalkTo(nodes, edges, walk, id) ensures |walk| - 1 <= Depth(d, id) {
      AcyclicWalksAreShort(nodes, edges, walk);
      WalksCounted(nodes, edges, |nodes|, walk);
    }
  }

  ghost predicate Rightward(edges: seq<Edge>, d: Depths) {
    forall i :: 0 <= i < |edges| ==> Depth(d, edges[i].from) < Depth(d, edges[i].to)
  }

  lemma {:induction false} RightwardWalkGrows(nodes: seq<string>, edges: seq<Edge>, d: Depths, walk: seq<string>)
    requires Rightward(edges, d) && Walk(nodes, edges, walk)
    ensures Depth(d, walk[0]) + |walk| - 1 <= Depth(d, walk[|walk| - 1])
  {
    if |walk| > 1 {
      var n := |walk| - 1;
      WalkPart(nodes, edges, walk, 0, n);
      assert walk[0..n][0] == walk[0] && walk[0..n][n - 1] == walk[n - 1];
      RightwardWalkGrows(nodes, edges, d, walk[0..n]);
      assert StepAlong(edges, walk, n - 1);
    }
  }

  lemma LongestGrowsAlong(nodes: seq<string>, edges: seq<Edge>, d: Depths, e: Edge)
    requires HasEdge(edges, e.from, e.to) && e.from in nodes && e.to in nodes
    requires LongestWalk(nodes, edges, e.from, Depth(d, e.from)) && LongestWalk(nodes, edges, e.to, Depth(d, e.to))
    ensures Depth(d, e.from) < Depth(d, e.to)
  {
    var walk :| WalkTo(nodes, edges, walk, e.from) && |walk| - 1 == Depth(d, e.from);
    WalkExtend(nodes, edges, walk, e.from, e.to);
  }

  /** Every edge leads to a deeper layer exactly when the graph has no cycle. */
  lemma RightwardExactlyWhenAcyclic(nodes: seq<string>, edges: seq<Edge>)
    requires EndpointsKnown(nodes, edges)
    ensures Rightward(edges, FinalDepths(nodes, edges)) <==> Acyclic(nodes, edges)
  {
    var d := FinalDepths(nodes, edges);
    if Acyclic(nodes, edges) {
      forall i | 0 <= i < |edges| ensures Depth(d, edges[i].from) < Depth(d, edges[i].to) {
        assert HasEdge(edges, edges[i].from, edges[i].to);
        DepthsAreLongestWalks(nodes, edges, edges[i].from);
        DepthsAreLongestWalks(nodes, edges, edges[i].to);
        LongestGrowsAlong(nodes, edges, d, edges[i]);
      }
    }
    if Rightward(edges, d) {
      forall walk | Walk(nodes, edges, walk) && |walk| > 1 ensures walk[0] != walk[|walk| - 1] {
        RightwardWalkGrows(nodes, edges, d, walk);
      }
    }
  }
}
