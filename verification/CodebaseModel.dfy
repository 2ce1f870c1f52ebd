/**
 The codebase model of one session (class CodebaseModel in packages/education/src/project-model.ts): a cached scan,
 facts of inspected sources kept up to date in place, and import traces over them.
 */
module CodebaseModel {
  import opened Common
  import opened ProjectScan
  import opened SourceFacts
  import opened ImportTrace

  /** The sandbox and the clock during one call. Files are read by their path from the project root. */
  datatype Sandbox = Sandbox(tree: World, read: string -> Option<string>, now: int)

  const CACHE_MS := 60_000
  const MAX_MANIFESTS := 24
  const MAX_MANIFEST_LENGTH := 64_000
  const MAX_SOURCE_LENGTH := 96_000

  function PathName(p: Path): string {
    if p == [] then "" else if |p| == 1 then p[0] else PathName(p[..|p| - 1]) + "/" + p[|p| - 1]
  }

  function PathNames(paths: seq<Path>): seq<string> {
    seq(|paths|, i requires 0 <= i < |paths| => PathName(paths[i]))
  }

  function DependenciesOf(file: string, names: seq<string>): seq<Relationship> {
    seq(|names|, i requires 0 <= i < |names| => Dependency(file, names[i]))
  }

  predicate ReadableManifest(tools: Tools, read: string -> Option<string>, file: string) {
    read(file).Some? && |read(file).value| <= MAX_MANIFEST_LENGTH && tools.dependencies(read(file).value).Some?
  }

  /** All dependencies that readable manifests name, in order. */
  function ManifestFacts(tools: Tools, read: string -> Option<string>, manifests: seq<string>): seq<Relationship> {
    if manifests == [] then [] else
    var last := manifests[|manifests| - 1];
    ManifestFacts(tools, read, manifests[..|manifests| - 1])
    + if ReadableManifest(tools, read, last) then DependenciesOf(last, tools.dependencies(read(last).value).value)
        else []
  }

  /** The manifests that are unreadable, too large or malformed, in order. */
  function ManifestErrors(tools: Tools, read: string -> Option<string>, manifests: seq<string>): seq<string> {
    Filter((file: string) => !ReadableManifest(tools, read, file), manifests)
  }

  method ReadManifests(tools: Tools, read: string -> Option<string>, manifests: seq<string>)
    returns (found: seq<Relationship>, errors: seq<string>)
    ensures found == ManifestFacts(tools, read, manifests) && errors == ManifestErrors(tools, read, manifests)
  {
    found, errors := [], [];
    for i := 0 to |manifests|
      invariant found == ManifestFacts(tools, read, manifests[..i])
                  && errors == ManifestErrors(tools, read, manifests[..i])
    {
      assert manifests[..i + 1][..i] == manifests[..i];
      var text := read(manifests[i]);
      if text.None? || |text.value| > MAX_MANIFEST_LENGTH || tools.dependencies(text.value).None? {
        errors := errors + [manifests[i]];
      } else {
        found := found + DependenciesOf(manifests[i], tools.dependencies(text.value).value);
      }
    }
    assert manifests[..|manifests|] == manifests;
  }

  /** The facts of manifests are exactly the dependencies that readable manifests name. */
  lemma {:induction false} ManifestFactsAre(tools: Tools, read: string -> Option<string>, manifests: seq<string>,
                                            r: Relationship)
    ensures r in ManifestFacts(tools, read, manifests) <==>
              && r.Dependency? && r.from in manifests && ReadableManifest(tools, read, r.from)
              && r.target in tools.dependencies(read(r.from).value).value
  {
    if manifests != [] {
      ManifestFactsAre(tools, read, manifests[..|manifests| - 1], r);
      var last := manifests[|manifests| - 1];
      assert manifests == manifests[..|manifests| - 1] + [last];
      if ReadableManifest(tools, read, last) { DependenciesAre(last, tools.dependencies(read(last).value).value, r); }
    }
  }

  lemma DependenciesAre(file: string, names: seq<string>, r: Relationship)
    ensures r in DependenciesOf(file, names) <==> r.Dependency? && r.from == file && r.target in names
  {
    if r.Dependency? && r.from == file && r.target in names {
      var i :| 0 <= i < |names| && names[i] == r.target;
      assert DependenciesOf(file, names)[i] == r;
    }
  }

  /** The manifests a scan reads: the first 24 listed. */
  function ScannedManifests(tools: Tools, files: seq<string>): seq<string> {
    Take(Filter(tools.manifestFile, files), MAX_MANIFESTS)
  }

  function ScanFacts(tools: Tools, read: string -> Option<string>, files: seq<string>): seq<Relationship> {
    ManifestFacts(tools, read, ScannedManifests(tools, files))
  }

  lemma ScanFactsAreDependencies(tools: Tools, read: string -> Option<string>, files: seq<string>)
    ensures forall r :: r in ScanFacts(tools, read, files) ==> r.Dependency?
  {
    forall r | r in ScanFacts(tools, read, files) ensures r.Dependency? {
      ManifestFactsAre(tools, read, ScannedManifests(tools, files), r);
    }
  }

  /**
   The facts of a new scan: all dependencies of the first 24 manifests, then what is kept of the sources, at most 600
   in all.
   */
  method CollectFacts(tools: Tools, read: string -> Option<string>, files: seq<string>, sources: seq<SourceSummary>,
                      relationships: seq<Relationship>)
    returns (kept: seq<SourceSummary>, related: seq<Relationship>, errors: seq<string>, cut: bool)
    ensures kept == Retained(tools, read, sources)
    ensures related == Rescanned(tools, read, sources, relationships, ScanFacts(tools, read, files))
    ensures errors == ManifestErrors(tools, read, ScannedManifests(tools, files))
    ensures cut <==>
              || |Filter(tools.manifestFile, files)| > MAX_MANIFESTS
              || |ScanFacts(tools, read, files) + RetainedFacts(kept, relationships)| > MAX_RELATIONSHIPS
  {
    var manifests := Filter(tools.manifestFile, files);
    var dependencies, all;
    dependencies, errors := ReadManifests(tools, read, Take(manifests, MAX_MANIFESTS));
    kept, all := RetainSources(tools, read, sources, relationships, dependencies);
    related, cut := Take(all, MAX_RELATIONSHIPS), |manifests| > MAX_MANIFESTS || |all| > MAX_RELATIONSHIPS;
  }

  method ScanAll(tools: Tools, env: Sandbox, ghost seen: map<string, string>, sources: seq<SourceSummary>,
                 relationships: seq<Relationship>)
    returns (listing: Listing, kept: seq<SourceSummary>, related: seq<Relationship>, errors: seq<string>,
        truncated: bool)
    requires NamesDistinct(env.tree)
    requires (sources == [] && relationships == []) || Remembered(tools, seen, sources, relationships)
    ensures Remembered(tools, seen, kept, related)
    ensures FactsRescanned(tools, env.read, PathNames(listing.files), sources, relationships, kept, related, truncated)
    ensures ErrorsMean(env.tree, tools, env.read, PathNames(listing.files), errors)
    ensures CoverageMeans(env.tree, listing.files, listing.directories, truncated, errors,
                          ManyFacts(tools, PathNames(listing.files), related))
  {
    var failed, cut;
    ghost var visited;
    listing, visited := ScanTree(env.tree);
    kept, related, failed, cut := CollectFacts(tools, env.read, PathNames(listing.files), sources, relationships);
    ScanFactsAreDependencies(tools, env.read, PathNames(listing.files));
    RescanIsRemembered(tools, seen, env.read, sources, relationships,
        ScanFacts(tools, env.read, PathNames(listing.files)));
    truncated, errors := listing.truncated || cut, PathNames(listing.errors) + failed;
  }

  ghost predicate FactsRescanned(tools: Tools, read: string -> Option<string>, files: seq<string>,
                                 sources: seq<SourceSummary>,
                                 relationships: seq<Relationship>, kept: seq<SourceSummary>, related: seq<Relationship>,
                                 truncated: bool) {
    && kept == Retained(tools, read, sources)
    && related == Rescanned(tools, read, sources, relationships, ScanFacts(tools, read, files))
    && (!truncated ==> |ScanFacts(tools, read, files) + RetainedFacts(kept, relationships)| <= MAX_RELATIONSHIPS)
  }

  /** The errors are directories of the tree that could not be listed, then the manifests that could not be used. */
  ghost predicate ErrorsMean(tree: World, tools: Tools, read: string -> Option<string>, files: seq<string>,
                             errors: seq<string>) {
    exists unlisted: seq<Path> ::
      && (forall d :: d in unlisted ==> ReachableDirectory(tree, d) && (!tree.hasListing || tree.list(d).None?))
      && errors == PathNames(unlisted) + ManifestErrors(tools, read, ScannedManifests(tools, files))
  }

  predicate ManyFacts(tools: Tools, files: seq<string>, related: seq<Relationship>) {
    |Filter(tools.manifestFile, files)| > MAX_MANIFESTS || |related| >= MAX_RELATIONSHIPS
  }

  /** What is listed is in the tree; without a flag it is the whole tree; and the flag has a reason. */
  ghost predicate CoverageMeans(tree: World, paths: seq<Path>, directories: seq<Path>, truncated: bool,
                                errors: seq<string>, manyFacts: bool) {
    && |paths| <= MAX_FILES && Sound(tree, paths, directories) && ShallowFirst(paths)
    && (!truncated && errors == [] ==> CoversTree(tree, paths, directories))
    && (FitsLimits(tree) && truncated && errors == [] ==> manyFacts)
  }

  /** The project model handed to callers; inspecting a file changes it in place. */
  class ProjectModel {
    var generation: nat
    var truncated: bool
    var errors: seq<string>
    var directories: seq<Path>
    var relationships: seq<Relationship>
    var sources: seq<SourceSummary>

    constructor (generation: nat, truncated: bool, errors: seq<string>, directories: seq<Path>,
                 relationships: seq<Relationship>, sources: seq<SourceSummary>)
      ensures this.generation == generation && this.truncated == truncated && this.errors == errors
      ensures this.directories == directories && this.relationships == relationships && this.sources == sources
    {
      this.generation, this.truncated, this.errors := generation, truncated, errors;
      this.directories, this.relationships, this.sources := directories, relationships, sources;
    }
  }

  datatype TraceResult = TraceResult(files: seq<string>, relationships: seq<Relationship>, unresolved: set<string>,
      truncated: bool)

  class Codebase {
    const tools: Tools
    var model: ProjectModel?
    var paths: seq<Path>
    var scannedAt: int
    /** The text each remembered source was last read with. */
    ghost var seen: map<string, string>

    ghost predicate Valid()
      reads this, model
    {
      model != null ==> Remembered(tools, seen, model.sources, model.relationships)
    }

    constructor (tools: Tools)
      ensures Valid() && this.tools == tools && model == null && scannedAt == 0 && paths == []
    {
      this.tools := tools;
      model, paths, scannedAt, seen := null, [], 0, map[];
    }

    function Sources(): seq<SourceSummary>
      reads this, model
    {
      if model == null then [] else model.sources
    }

    function Relationships(): seq<Relationship>
      reads this, model
    {
      if model == null then [] else model.relationships
    }

    /** A scan of the last minute is used again. */
    predicate Cached(now: int)
      reads this
    {
      model != null && now - scannedAt < CACHE_MS
    }

    function Files(): seq<string>
      reads this
    {
      PathNames(paths)
    }

    /**
     What a new scan leaves: the sources that still match, their facts, and coverage flags that mean what they say.
     */
    ghost predicate Rescan(env: Sandbox, sources: seq<SourceSummary>, relationships: seq<Relationship>)
      reads this, model
    {
      && model != null && scannedAt == env.now
      && FactsRescanned(tools, env.read, Files(), sources, relationships, model.sources, model.relationships,
          model.truncated)
      && ErrorsMean(env.tree, tools, env.read, Files(), model.errors)
      && CoverageMeans(env.tree, paths, model.directories, model.truncated, model.errors,
          ManyFacts(tools, Files(), model.relationships))
    }

    method Invalidate()
      requires Valid()
      modifies this
      ensures Valid() && model == null && scannedAt == 0 && paths == old(paths)
    {
      scannedAt := 0;
      model := null;
    }

    method Scan(env: Sandbox)
      requires Valid() && NamesDistinct(env.tree)
      modifies this
      ensures Valid() && fresh(model) && seen == old(seen)
      ensures Rescan(env, old(Sources()), old(Relationships()))
      ensures model.generation == if old(model) == null then 1 else old(model.generation) + 1
    {
      var generation := if model == null then 0 else model.generation;
      var listing, kept, related, errors, truncated := ScanAll(tools, env, seen, Sources(), Relationships());
      paths := listing.files;
      model := new ProjectModel(generation + 1, truncated, errors, listing.directories, related, kept);
      scannedAt := env.now;
    }

    /** Uses the cached scan unless it is old or a new one is asked for. */
    method Get(env: Sandbox, refresh: bool)
      requires Valid() && NamesDistinct(env.tree)
      modifies this
      ensures Valid() && Cached(env.now) && seen == old(seen)
      ensures !refresh && old(Cached(env.now)) ==>
                model == old(model) && paths == old(paths) && scannedAt == old(scannedAt)
      ensures refresh || !old(Cached(env.now)) ==> fresh(model) && Rescan(env, old(Sources()), old(Relationships()))
    {
      if !refresh && Cached(env.now) { return; }
      Scan(env);
    }

    predicate CanInspect(env: Sandbox, file: string) {
      tools.sourceFile(file) && env.read(file).Some? && |env.read(file).value| <= MAX_SOURCE_LENGTH
    }

    /**
     Reads a source file and replaces what was known about it; fails for other files and for unreadable or long ones.
     */
    method Inspect(env: Sandbox, file: string) returns (ok: bool)
      requires Valid() && NamesDistinct(env.tree)
      modifies this, model
      ensures Valid() && ok == CanInspect(env, file)
      ensures !tools.sourceFile(file) ==>
                model == old(model) && Sources() == old(Sources()) && Relationships() == old(Relationships())
      ensures old(Cached(env.now)) ==> model == old(model) && paths == old(paths) && scannedAt == old(scannedAt)
      ensures !old(Cached(env.now)) && tools.sourceFile(file) ==> fresh(model)
      ensures tools.sourceFile(file) ==> Cached(env.now)
      ensures old(Cached(env.now)) && ok ==>
                && Sources() == SourcesAfter(old(Sources()), Summary(tools, file, env.read(file).value))
                && Relationships() == RelationshipsAfter(old(Relationships()), old(Sources()), file,
                    ImportFacts(tools, file, SplitLines(env.read(file).value)))
      ensures !old(Cached(env.now)) && ok ==>
                var kept := Retained(tools, env.read, old(Sources()));
                var facts := Rescanned(tools, env.read, old(Sources()), old(Relationships()),
                    ScanFacts(tools, env.read, Files()));
                && Sources() == SourcesAfter(kept, Summary(tools, file, env.read(file).value))
                && Relationships() == RelationshipsAfter(facts, kept, file,
                    ImportFacts(tools, file, SplitLines(env.read(file).value)))
      ensures !old(Cached(env.now)) && !ok && tools.sourceFile(file) ==>
                Rescan(env, old(Sources()), old(Relationships()))
      ensures ok ==> FactsOf(file, Relationships()) == ImportFacts(tools, file, SplitLines(env.read(file).value))
      ensures !ok && old(Cached(env.now)) ==> Sources() == old(Sources()) && Relationships() == old(Relationships())
    {
      if !tools.sourceFile(file) { return false; }
      Get(env, false);
      var read := env.read(file);
      if read.None? || |read.value| > MAX_SOURCE_LENGTH { return false; }
      var text := read.value;
      InspectIsRemembered(tools, seen, model.sources, model.relationships, file, text);
      Record(file, text);
      return true;
    }

    method Record(file: string, text: string)
      requires Valid() && model != null
      modifies this`seen, model
      ensures model.sources == SourcesAfter(old(model.sources), Summary(tools, file, text))
      ensures model.relationships
                == RelationshipsAfter(old(model.relationships), old(model.sources), file,
                    ImportFacts(tools, file, SplitLines(text)))
      ensures seen == old(seen)[file := text]
    {
      ghost var sources, relationships := model.sources, model.relationships;
      var facts, summary := ExtractFacts(tools, file, text, Filter(NotImportOf(file), model.relationships));
      model.relationships := facts;
      model.sources := Without(file, model.sources) + [summary];
      if |model.sources| > MAX_SOURCES {
        assert model.sources[0] == Without(file, sources)[0];
        model.relationships := Filter(NotImportOf(model.sources[0].file), model.relationships);
        model.sources := model.sources[1..];
      }
      seen := seen[file := text];
    }

    /** One step of a trace: inspects the first file in the queue and follows its imports. */
    method Visit(env: Sandbox, ghost v: View, ghost start: string, visited: seq<string>, queue: seq<string>,
                 relationships: seq<Relationship>, unresolved: set<string>)
      returns (ok: bool, queue': seq<string>, relationships': seq<Relationship>, unresolved': set<string>)
      requires Valid() && NamesDistinct(env.tree) && Cached(env.now) && v == View(tools, env.read, Files())
      requires TraceInv(v, start, visited, queue) && queue != [] && queue[0] !in visited && |visited| < MAX_TRACE
      requires relationships == AllFacts(v, visited) && unresolved == AllMissing(v, visited)
      modifies this, model
      ensures Valid() && Cached(env.now) && model == old(model) && paths == old(paths) && scannedAt == old(scannedAt)
      ensures ok == CanInspect(env, queue[0])
      ensures ok ==> TraceInv(v, start, visited + [queue[0]], queue')
      ensures ok ==>
                relationships' == AllFacts(v, visited + [queue[0]])
                && unresolved' == AllMissing(v, visited + [queue[0]])
    {
      var current := queue[0];
      queue', relationships', unresolved' := queue, relationships, unresolved;
      ok := Inspect(env, current);
      if !ok { return; }
      VisitKeepsTrace(v, start, visited, queue);
      var facts := FactsOf(current, Relationships());
      AllNext(v, visited, current);
      relationships' := relationships + facts;
      queue', unresolved' := FollowFacts(ResolverFor(tools, Files(), current), facts, visited + [current], queue[1..],
          unresolved);
    }

    /** Follows local imports from a file, inspecting at most 8 files; fails when one of them cannot be inspected. */
    method Trace(env: Sandbox, file: string) returns (r: Option<TraceResult>)
      requires Valid() && NamesDistinct(env.tree)
      modifies this, model
      ensures Valid() && Cached(env.now)
      ensures old(Cached(env.now)) ==> model == old(model) && paths == old(paths) && scannedAt == old(scannedAt)
      ensures r.Some? ==> TraceFound(View(tools, env.read, Files()), file, r.value)
      ensures r.Some? ==> forall f :: f in r.value.files ==> CanInspect(env, f)
      ensures r.None? ==> exists f :: Reachable(View(tools, env.read, Files()), file, f) && !CanInspect(env, f)
    {
      Get(env, false);
      ghost var v := View(tools, env.read, Files());
      var queue, visited, relationships, unresolved := [file], [], [], {};
      StartReachable(v, file);
      while queue != [] && |visited| < MAX_TRACE
        invariant Valid() && Cached(env.now) && Files() == v.files
        invariant old(Cached(env.now)) ==> model == old(model) && paths == old(paths) && scannedAt == old(scannedAt)
        invariant model == old(model) || fresh(model)
        invariant TraceInv(v, file, visited, queue) && StartsAt(file, visited, queue)
        invariant relationships == AllFacts(v, visited) && unresolved == AllMissing(v, visited)
        invariant forall f :: f in visited ==> CanInspect(env, f)
        decreases MAX_TRACE - |visited|, |queue|
      {
        var current := queue[0];
        if current in visited {
          SkipKeepsTrace(v, file, visited, queue);
          queue := queue[1..];
          continue;
        }
        var ok;
        ok, queue, relationships, unresolved := Visit(env, v, file, visited, queue, relationships, unresolved);
        if !ok { return None; }
        visited := visited + [current];
      }
      if queue == [] { TraceCloses(v, file, visited); }
      r := Some(TraceResult(visited, relationships, unresolved, queue != []));
    }
  }

  predicate StartsAt(start: string, visited: seq<string>, queue: seq<string>) {
    if visited == [] then queue != [] && queue[0] == start else visited[0] == start
  }

  /**
   A trace visits distinct reachable files, reports exactly their facts, and unless truncated has visited every
   reachable file.
   */
  ghost predicate TraceFound(v: View, start: string, t: TraceResult) {
    && 0 < |t.files| <= MAX_TRACE && NoRepeats(t.files) && t.files[0] == start
    && (forall f :: f in t.files ==> Reachable(v, start, f))
    && t.relationships == AllFacts(v, t.files) && t.unresolved == AllMissing(v, t.files)
    && (!t.truncated ==> forall f :: Reachable(v, start, f) ==> f in t.files)
    && (t.truncated ==> |t.files| == MAX_TRACE)
  }

  lemma RescanIsRemembered(tools: Tools, seen: map<string, string>, read: string -> Option<string>,
                           sources: seq<SourceSummary>, relationships: seq<Relationship>, found: seq<Relationship>)
    requires (sources == [] && relationships == []) || Remembered(tools, seen, sources, relationships)
    requires forall r :: r in found ==> r.Dependency?
    ensures Remembered(tools, seen, Retained(tools, read, sources),
              Rescanned(tools, read, sources, relationships, found))
  {
    RescanKeepsRemembered(tools, seen, read, sources, relationships, found);
  }

  lemma InspectIsRemembered(tools: Tools, seen: map<string, string>, sources: seq<SourceSummary>,
                            relationships: seq<Relationship>, file: string, text: string)
    requires Remembered(tools, seen, sources, relationships)
    ensures var summary, facts := Summary(tools, file, text), ImportFacts(tools, file, SplitLines(text));
            var after := RelationshipsAfter(relationships, sources, file, facts);
            Remembered(tools, seen[file := text], SourcesAfter(sources, summary), after)
                && FactsOf(file, after) == facts
  {
    InspectKeepsRemembered(tools, seen, sources, relationships, file, text);
    InspectSetsFacts(tools, sources, relationships, file, SplitLines(text), file);
    WithoutAre(file, sources);
    if |Without(file, sources)| >= MAX_SOURCES {
      assert Without(file, sources)[0] in Without(file, sources);
    }
  }
}
