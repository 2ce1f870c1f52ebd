/**
 Following local imports from file to file with a budget (CodebaseModel.trace in
 packages/education/src/project-model.ts).
 */
module ImportTrace {
  import opened Common
  import opened SourceFacts

  const MAX_TRACE := 8

  predicate EndsWith(s: string, suffix: string) {
    |suffix| <= |s| && s[|s| - |suffix|..] == suffix
  }

  function DotsToSlashes(s: string): string {
    if s == "" then "" else [if s[0] == '.' then '/' else s[0]] + DotsToSlashes(s[1..])
  }

  /** Where an import points before its extension is known; empty for an import that is not local. */
  function BaseOf(tools: Tools, current: string, target: string): string {
    if target != "" && target[0] == '.' then tools.join(current, target)
    else if EndsWith(current, ".py") then DotsToSlashes(target)
    else ""
  }

  function Candidates(base: string): seq<string> {
    if base == "" then [] else
    [base, if EndsWith(base, ".js") then base[..|base| - 3] + ".ts" else base, base + ".ts", base + ".tsx",
        base + ".js", base + ".jsx",
     base + ".py", base + "/index.ts", base + "/index.js", base + "/__init__.py"]
  }

  function FirstListed(candidates: seq<string>, files: seq<string>): Option<string> {
    if candidates == [] then None
    else if candidates[0] in files then Some(candidates[0])
    else FirstListed(candidates[1..], files)
  }

  function Resolve(tools: Tools, files: seq<string>, current: string, target: string): Option<string> {
    FirstListed(Candidates(BaseOf(tools, current, target)), files)
  }

  type Resolver = string -> Option<string>

  function ResolverFor(tools: Tools, files: seq<string>, current: string): Resolver {
    target => Resolve(tools, files, current, target)
  }

  /**
   The files queued for the facts of one file: those that resolve and have not been visited, in order, repeats
   included.
   */
  function Followed(resolve: Resolver, facts: seq<Relationship>, visited: seq<string>): seq<string> {
    if facts == [] then [] else
    var resolved := resolve(facts[|facts| - 1].target);
    Followed(resolve, facts[..|facts| - 1], visited)
    + if resolved.Some? && resolved.value !in visited then [resolved.value] else []
  }

  /** The imports with no listed candidate. */
  function Missing(resolve: Resolver, facts: seq<Relationship>): set<string> {
    if facts == [] then {} else
    var target := facts[|facts| - 1].target;
    Missing(resolve, facts[..|facts| - 1]) + if resolve(target).None? then {target} else {}
  }

  method FollowFacts(resolve: Resolver, facts: seq<Relationship>, visited: seq<string>, queue: seq<string>,
                     unresolved: set<string>)
    returns (queue': seq<string>, unresolved': set<string>)
    ensures queue' == queue + Followed(resolve, facts, visited)
    ensures unresolved' == unresolved + Missing(resolve, facts)
  {
    queue', unresolved' := queue, unresolved;
    for i := 0 to |facts|
      invariant queue' == queue + Followed(resolve, facts[..i], visited)
      invariant unresolved' == unresolved + Missing(resolve, facts[..i])
    {
      assert facts[..i + 1][..i] == facts[..i];
      var resolved := resolve(facts[i].target);
      if resolved.Some? && resolved.value !in visited {
        queue' := queue' + [resolved.value];
      } else if resolved.None? {
        unresolved' := unresolved' + {facts[i].target};
      }
    }
    assert facts[..|facts|] == facts;
  }

  // ----- Reachability along resolved imports -----

  /** The project as a trace sees it. */
  datatype View = View(tools: Tools, read: string -> Option<string>, files: seq<string>)

  ghost function FactsIn(v: View, file: string): seq<Relationship> {
    if v.read(file).Some? then ImportFacts(v.tools, file, SplitLines(v.read(file).value)) else []
  }

  ghost predicate Leads(v: View, a: string, b: string) {
    ResolvesTo(ResolverFor(v.tools, v.files, a), FactsIn(v, a), Some(b))
  }

  ghost predicate Chain(v: View, walk: seq<string>) {
    walk != [] && forall i :: 0 < i < |walk| ==> LeadsTo(v, walk, i)
  }

  ghost predicate LeadsTo(v: View, walk: seq<string>, i: int)
    requires 0 < i < |walk|
  {
    Leads(v, walk[i - 1], walk[i])
  }

  ghost predicate ChainTo(v: View, start: string, walk: seq<string>, b: string) {
    Chain(v, walk) && walk[0] == start && walk[|walk| - 1] == b
  }

  ghost predicate Reachable(v: View, start: string, b: string) {
    exists walk :: ChainTo(v, start, walk, b)
  }

  lemma StartReachable(v: View, start: string)
    ensures Reachable(v, start, start)
  {
    assert ChainTo(v, start, [start], start);
  }

  lemma ReachableNext(v: View, start: string, a: string, b: string)
    requires Reachable(v, start, a) && Leads(v, a, b)
    ensures Reachable(v, start, b)
  {
    var walk :| ChainTo(v, start, walk, a);
    var longer := walk + [b];
    forall i | 0 < i < |longer| ensures LeadsTo(v, longer, i) {
      if i < |walk| { assert LeadsTo(v, walk, i); }
    }
    assert ChainTo(v, start, longer, b);
  }

  ghost predicate TraceInv(v: View, start: string, visited: seq<string>, queue: seq<string>) {
    && |visited| <= MAX_TRACE && NoRepeats(visited)
    && (start in visited || start in queue)
    && (forall f :: f in visited || f in queue ==> Reachable(v, start, f))
    && (forall a, b :: a in visited && Leads(v, a, b) ==> b in visited || b in queue)
  }

  ghost predicate ResolvesTo(resolve: Resolver, facts: seq<Relationship>, b: Option<string>) {
    exists k :: 0 <= k < |facts| && resolve(facts[k].target) == b
  }

  lemma ResolvesToSnoc(resolve: Resolver, facts: seq<Relationship>, b: Option<string>)
    requires facts != []
    ensures ResolvesTo(resolve, facts, b) <==>
              ResolvesTo(resolve, facts[..|facts| - 1], b) || resolve(facts[|facts| - 1].target) == b
  {
    var init := facts[..|facts| - 1];
    if ResolvesTo(resolve, init, b) {
      var k :| 0 <= k < |init| && resolve(init[k].target) == b;
      assert facts[k] == init[k];
    }
  }

  lemma {:induction false} FollowedAre(resolve: Resolver, facts: seq<Relationship>, visited: seq<string>, b: string)
    ensures b in Followed(resolve, facts, visited) <==> b !in visited && ResolvesTo(resolve, facts, Some(b))
  {
    if facts != [] {
      FollowedAre(resolve, facts[..|facts| - 1], visited, b);
      ResolvesToSnoc(resolve, facts, Some(b));
    }
  }

  lemma {:induction false} MissingAre(resolve: Resolver, facts: seq<Relationship>, u: string)
    ensures u in Missing(resolve, facts) <==>
              resolve(u).None? && exists k :: 0 <= k < |facts| && facts[k].target == u
  {
    if facts != [] {
      var init := facts[..|facts| - 1];
      MissingAre(resolve, init, u);
      assert facts == init + [facts[|facts| - 1]];
    }
  }

  lemma VisitKeepsTrace(v: View, start: string, visited: seq<string>, queue: seq<string>)
    requires TraceInv(v, start, visited, queue) && queue != [] && queue[0] !in visited && |visited| < MAX_TRACE
    ensures TraceInv(v, start, visited + [queue[0]],
                     queue[1..] + Followed(ResolverFor(v.tools, v.files, queue[0]), FactsIn(v, queue[0]),
                         visited + [queue[0]]))
  {
    var current := queue[0];
    var added := Followed(ResolverFor(v.tools, v.files, current), FactsIn(v, current), visited + [current]);
    forall f ensures f in added <==> f !in visited + [current] && Leads(v, current, f) {
      FollowedAre(ResolverFor(v.tools, v.files, current), FactsIn(v, current), visited + [current], f);
    }
    forall f | f in added ensures Reachable(v, start, f) {
      ReachableNext(v, start, current, f);
    }
    assert forall f :: f in queue ==> f == current || f in queue[1..];
    assert forall f :: f in queue[1..] ==> f in queue;
  }

  lemma SkipKeepsTrace(v: View, start: string, visited: seq<string>, queue: seq<string>)
    requires TraceInv(v, start, visited, queue) && queue != [] && queue[0] in visited
    ensures TraceInv(v, start, visited, queue[1..])
  {
    assert forall f :: f in queue ==> f == queue[0] || f in queue[1..];
    assert forall f :: f in queue[1..] ==> f in queue;
  }

  lemma {:induction false} ChainStaysInside(v: View, start: string, visited: seq<string>, walk: seq<string>, b: string)
    requires TraceInv(v, start, visited, []) && ChainTo(v, start, walk, b)
    ensures b in visited
  {
    if |walk| > 1 {
      var init := walk[..|walk| - 1];
      forall i | 0 < i < |init| ensures LeadsTo(v, init, i) { assert LeadsTo(v, walk, i); }
      ChainStaysInside(v, start, visited, init, init[|init| - 1]);
      assert LeadsTo(v, walk, |walk| - 1);
    }
  }

  /** With nothing left in the queue, the visited files are exactly the reachable ones. */
  lemma TraceCloses(v: View, start: string, visited: seq<string>)
    requires TraceInv(v, start, visited, [])
    ensures forall f :: f in visited <==> Reachable(v, start, f)
  {
    forall f | Reachable(v, start, f) ensures f in visited {
      var walk :| ChainTo(v, start, walk, f);
      ChainStaysInside(v, start, visited, walk, f);
    }
  }

  /** The facts of the visited files, in visiting order. */
  ghost function AllFacts(v: View, visited: seq<string>): seq<Relationship> {
    if visited == [] then [] else AllFacts(v, visited[..|visited| - 1]) + FactsIn(v, visited[|visited| - 1])
  }

  /** The imports of visited files that no listed file answers. */
  ghost function AllMissing(v: View, visited: seq<string>): set<string> {
    if visited == [] then {} else
    var last := visited[|visited| - 1];
    AllMissing(v, visited[..|visited| - 1]) + Missing(ResolverFor(v.tools, v.files, last), FactsIn(v, last))
  }

  lemma AllNext(v: View, visited: seq<string>, file: string)
    ensures AllFacts(v, visited + [file]) == AllFacts(v, visited) + FactsIn(v, file)
    ensures AllMissing(v, visited + [file])
         == AllMissing(v, visited) + Missing(ResolverFor(v.tools, v.files, file), FactsIn(v, file))
  {
    assert (visited + [file])[..|visited|] == visited;
  }

  /** A visited file imports u, and no candidate for it is listed. */
  ghost predicate Unanswered(v: View, file: string, u: string) {
    && Resolve(v.tools, v.files, file, u).None?
    && exists k :: 0 <= k < |FactsIn(v, file)| && FactsIn(v, file)[k].target == u
  }

  lemma MissingInFile(v: View, file: string, u: string)
    ensures u in Missing(ResolverFor(v.tools, v.files, file), FactsIn(v, file)) <==> Unanswered(v, file, u)
  {
    MissingAre(ResolverFor(v.tools, v.files, file), FactsIn(v, file), u);
  }

  lemma AllMissingSnoc(v: View, visited: seq<string>, u: string)
    requires visited != []
    ensures u in AllMissing(v, visited) <==>
              u in AllMissing(v, visited[..|visited| - 1]) || Unanswered(v, visited[|visited| - 1], u)
  {
    MissingInFile(v, visited[|visited| - 1], u);
  }

  ghost predicate SomeFile(p: string -> bool, files: seq<string>) {
    exists i :: 0 <= i < |files| && p(files[i])
  }

  lemma SomeFileSnoc(p: string -> bool, files: seq<string>)
    requires files != []
    ensures SomeFile(p, files) <==> SomeFile(p, files[..|files| - 1]) || p(files[|files| - 1])
  {
    var init := files[..|files| - 1];
    if SomeFile(p, init) {
      var i :| 0 <= i < |init| && p(init[i]);
      assert files[i] == init[i];
    }
    if SomeFile(p, files) {
      var i :| 0 <= i < |files| && p(files[i]);
      if i < |init| { assert files[i] == init[i]; }
    }
  }

  ghost function Asks(v: View, u: string): string -> bool {
    file => Unanswered(v, file, u)
  }

  /** What a trace reports as unresolved are exactly the imports of visited files for which no candidate is listed. */
  lemma {:induction false} UnresolvedExactly(v: View, visited: seq<string>, u: string)
    ensures u in AllMissing(v, visited) <==> SomeFile(Asks(v, u), visited)
  {
    if visited != [] {
      UnresolvedExactly(v, visited[..|visited| - 1], u);
      AllMissingSnoc(v, visited, u);
      SomeFileSnoc(Asks(v, u), visited);
    }
  }

  /** Every fact a trace reports starts at a file it visited, and all facts of those files are reported. */
  lemma {:induction false} FactsOfVisited(v: View, visited: seq<string>, r: Relationship)
    ensures r in AllFacts(v, visited) <==> exists i :: 0 <= i < |visited| && r in FactsIn(v, visited[i])
    ensures r in AllFacts(v, visited) ==> r.Imports? && r.from in visited
  {
    if visited != [] {
      var init, last := visited[..|visited| - 1], visited[|visited| - 1];
      FactsOfVisited(v, init, r);
      if v.read(last).Some? { ImportFactsAre(v.tools, last, SplitLines(v.read(last).value)); }
      assert visited == init + [last];
    }
  }
}
