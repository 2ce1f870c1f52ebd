/**
 What the codebase model remembers about inspected sources: summaries, import facts, retention on a rescan
 and eviction (CodebaseModel.scan and inspect in packages/education/src/project-model.ts).
 */
module SourceFacts {
  import opened Common

  datatype Relationship = Imports(from: string, target: string, line: nat) | Dependency(from: string, target: string)

  datatype SourceSummary = SourceSummary(file: string, fingerprint: string, symbols: seq<string>)

  /**
   The hash, the patterns applied to single lines and to file names, the dependencies named by a manifest
   (none if it cannot be parsed), and the joining of a relative import to the directory of a file.
   */
  datatype Tools = Tools(
    hash: string -> string, importIn: string -> Option<string>, symbolIn: string -> Option<string>,
    sourceFile: string -> bool, manifestFile: string -> bool,
    dependencies: string -> Option<seq<string>>, join: (string, string) -> string)

  const MAX_SOURCES := 32
  const MAX_RELATIONSHIPS := 600

  function SplitLines(text: string): seq<string> {
    if text == "" then [""] else
    var init, last := SplitLines(text[..|text| - 1]), text[|text| - 1];
    if last == '\n' then init + [""] else init[..|init| - 1] + [init[|init| - 1] + [last]]
  }

  /** The import facts of the first lines of a file, in line order. */
  function ImportFacts(tools: Tools, file: string, lines: seq<string>): seq<Relationship> {
    if lines == [] then [] else
    var found := tools.importIn(lines[|lines| - 1]);
    ImportFacts(tools, file, lines[..|lines| - 1]) + if found.Some? then [Imports(file, found.value, |lines|)] else []
  }

  function Symbols(tools: Tools, lines: seq<string>): seq<string> {
    if lines == [] then [] else
    var found := tools.symbolIn(lines[|lines| - 1]);
    Symbols(tools, lines[..|lines| - 1]) + if found.Some? then [found.value] else []
  }

  function Summary(tools: Tools, file: string, text: string): SourceSummary {
    SourceSummary(file, tools.hash(text), Symbols(tools, SplitLines(text)))
  }

  /** The loop over the lines of a file. */
  method ExtractFacts(tools: Tools, file: string, text: string, before: seq<Relationship>)
    returns (relationships: seq<Relationship>, summary: SourceSummary)
    ensures relationships == before + ImportFacts(tools, file, SplitLines(text))
    ensures summary == Summary(tools, file, text)
  {
    var lines := SplitLines(text);
    var symbols := [];
    relationships := before;
    for i := 0 to |lines|
      invariant relationships == before + ImportFacts(tools, file, lines[..i]) && symbols == Symbols(tools, lines[..i])
    {
      assert lines[..i + 1][..i] == lines[..i];
      var imported := tools.importIn(lines[i]);
      if imported.Some? { relationships := relationships + [Imports(file, imported.value, i + 1)]; }
      var symbol := tools.symbolIn(lines[i]);
      if symbol.Some? { symbols := symbols + [symbol.value]; }
    }
    assert lines[..|lines|] == lines;
    summary := SourceSummary(file, tools.hash(text), symbols);
  }

  function ImportOf(file: string): Relationship -> bool {
    (r: Relationship) => r.Imports? && r.from == file
  }

  function NotImportOf(file: string): Relationship -> bool {
    (r: Relationship) => !(r.Imports? && r.from == file)
  }

  function FactsOf(file: string, relationships: seq<Relationship>): seq<Relationship> {
    Filter(ImportOf(file), relationships)
  }

  function Without(file: string, sources: seq<SourceSummary>): seq<SourceSummary> {
    Filter((s: SourceSummary) => s.file != file, sources)
  }

  /** The sources after a file was inspected: it moves to the end, and at most the oldest one goes. */
  function SourcesAfter(sources: seq<SourceSummary>, summary: SourceSummary): seq<SourceSummary> {
    var all := Without(summary.file, sources) + [summary];
    if |all| > MAX_SOURCES then all[1..] else all
  }

  /** The relationships after a file was inspected. */
  function RelationshipsAfter(relationships: seq<Relationship>, sources: seq<SourceSummary>, file: string,
                              facts: seq<Relationship>): seq<Relationship> {
    var all := Filter(NotImportOf(file), relationships) + facts;
    var others := Without(file, sources);
    if |others| + 1 > MAX_SOURCES then Filter(NotImportOf(others[0].file), all) else all
  }

  // ----- What the model remembers -----

  ghost predicate PrefixOf<T(!new)>(s: seq<T>, t: seq<T>) {
    |s| <= |t| && s == t[..|s|]
  }

  ghost predicate Has(sources: seq<SourceSummary>, file: string) {
    exists i :: 0 <= i < |sources| && sources[i].file == file
  }

  ghost predicate DistinctFiles(sources: seq<SourceSummary>) {
    forall i, j :: 0 <= i < j < |sources| ==> sources[i].file != sources[j].file
  }

  /** No import is remembered for a file that is not. */
  ghost predicate FactsHaveSources(sources: seq<SourceSummary>, relationships: seq<Relationship>) {
    forall r :: r in relationships && r.Imports? ==> Has(sources, r.from)
  }

  /**
   The fingerprint of a source is that of the text it was last read with, and its facts are the first ones of that
   text.
   */
  ghost predicate FactsFromText(tools: Tools, seen: map<string, string>, source: SourceSummary,
                                relationships: seq<Relationship>) {
    && source.file in seen && source.fingerprint == tools.hash(seen[source.file])
    && PrefixOf(FactsOf(source.file, relationships), ImportFacts(tools, source.file, SplitLines(seen[source.file])))
  }

  ghost predicate Remembered(tools: Tools, seen: map<string, string>, sources: seq<SourceSummary>,
                             relationships: seq<Relationship>) {
    && |sources| <= MAX_SOURCES && DistinctFiles(sources)
    && FactsHaveSources(sources, relationships)
    && forall i :: 0 <= i < |sources| ==> FactsFromText(tools, seen, sources[i], relationships)
  }

  // ----- Filters -----

  lemma FilterNested<T(!new)>(p: T -> bool, q: T -> bool, s: seq<T>)
    ensures (forall x :: p(x) ==> q(x)) ==> Filter(p, Filter(q, s)) == Filter(p, s)
    ensures (forall x :: p(x) ==> !q(x)) ==> Filter(p, Filter(q, s)) == []
  {
    if forall x :: p(x) ==> q(x) { FilterTwice(p, q, p, s); }
    if forall x :: p(x) ==> !q(x) {
      FilterMembers(q, s);
      FilterNone(p, Filter(q, s));
    }
  }

  lemma {:induction false} FilterLength<T>(p: T -> bool, s: seq<T>)
    ensures |Filter(p, s)| <= |s|
  {
    if s != [] { FilterLength(p, s[..|s| - 1]); }
  }

  lemma FilterPrefix<T(!new)>(p: T -> bool, s: seq<T>, n: nat)
    ensures PrefixOf(Filter(p, Take(s, n)), Filter(p, s))
  {
    if n < |s| {
      assert s == s[..n] + s[n..];
      FilterAppend(p, s[..n], s[n..]);
    }
  }

  lemma {:induction false} FilterNone<T>(p: T -> bool, s: seq<T>)
    requires forall x :: x in s ==> !p(x)
    ensures Filter(p, s) == []
  {
    if s != [] { FilterNone(p, s[..|s| - 1]); }
  }

  lemma {:induction false} ImportFactsAre(tools: Tools, file: string, lines: seq<string>)
    ensures forall r :: r in ImportFacts(tools, file, lines) ==> r.Imports? && r.from == file
  {
    if lines != [] { ImportFactsAre(tools, file, lines[..|lines| - 1]); }
  }

  lemma FactsOfOwn(tools: Tools, file: string, lines: seq<string>)
    ensures FactsOf(file, ImportFacts(tools, file, lines)) == ImportFacts(tools, file, lines)
    ensures forall g :: g != file ==> FactsOf(g, ImportFacts(tools, file, lines)) == []
  {
    ImportFactsAre(tools, file, lines);
    FilterAll(ImportOf(file), ImportFacts(tools, file, lines));
    forall g | g != file ensures FactsOf(g, ImportFacts(tools, file, lines)) == [] {
      FilterNone(ImportOf(g), ImportFacts(tools, file, lines));
    }
  }

  /** Dropping the facts of one file leaves every other file's facts as they were. */
  lemma FactsAfterDrop(relationships: seq<Relationship>, dropped: string, g: string)
    ensures FactsOf(g, Filter(NotImportOf(dropped), relationships)) == if g == dropped then []
              else FactsOf(g, relationships)
  {
    FilterNested(ImportOf(g), NotImportOf(dropped), relationships);
  }

  // ----- Inspecting -----

  lemma ReplacedFacts(tools: Tools, relationships: seq<Relationship>, file: string, lines: seq<string>, g: string)
    ensures FactsOf(g, Filter(NotImportOf(file), relationships) + ImportFacts(tools, file, lines))
         == if g == file then ImportFacts(tools, file, lines) else FactsOf(g, relationships)
  {
    FilterAppend(ImportOf(g), Filter(NotImportOf(file), relationships), ImportFacts(tools, file, lines));
    FactsAfterDrop(relationships, file, g);
    FactsOfOwn(tools, file, lines);
    if g == file {
      Neutral(ImportFacts(tools, file, lines));
    } else {
      assert FactsOf(g, ImportFacts(tools, file, lines)) == [];
      Neutral(FactsOf(g, relationships));
    }
  }

  lemma Neutral<T>(s: seq<T>)
    ensures s + [] == s && [] + s == s
  {
  }

  /** Inspecting a file makes its facts exactly those of its text and leaves those of every remaining file alone. */
  lemma InspectSetsFacts(tools: Tools, sources: seq<SourceSummary>, relationships: seq<Relationship>, file: string,
                         lines: seq<string>, g: string)
    ensures var after := RelationshipsAfter(relationships, sources, file, ImportFacts(tools, file, lines));
            var others := Without(file, sources);
            FactsOf(g, after) == if |others| >= MAX_SOURCES && g == others[0].file then []
                                 else if g == file then ImportFacts(tools, file, lines)
                                 else FactsOf(g, relationships)
  {
    ReplacedFacts(tools, relationships, file, lines, g);
    if |Without(file, sources)| + 1 > MAX_SOURCES {
      FactsAfterDrop(Filter(NotImportOf(file), relationships) + ImportFacts(tools, file, lines),
          Without(file, sources)[0].file, g);
    }
  }

  lemma {:induction false} WithoutAre(file: string, sources: seq<SourceSummary>)
    requires DistinctFiles(sources)
    ensures DistinctFiles(Without(file, sources)) && |Without(file, sources)| <= |sources|
    ensures forall s :: s in Without(file, sources) <==> s in sources && s.file != file
  {
    if sources != [] {
      var init := sources[..|sources| - 1];
      WithoutAre(file, init);
      assert sources == init + [sources[|sources| - 1]];
      forall i | 0 <= i < |Without(file, init)| ensures Without(file, init)[i].file != sources[|sources| - 1].file {
        assert Without(file, init)[i] in Without(file, init);
      }
    }
  }

  /**
   The file just inspected is remembered, last; every other source stays, in order, except that beyond 32
   the one inspected longest ago goes.
   */
  lemma InspectedIsNeverEvicted(sources: seq<SourceSummary>, summary: SourceSummary)
    requires DistinctFiles(sources) && |sources| <= MAX_SOURCES
    ensures var after := SourcesAfter(sources, summary);
            var others := Without(summary.file, sources);
            && 0 < |after| <= MAX_SOURCES && DistinctFiles(after) && after[|after| - 1] == summary
            && (after == others + [summary]
                || (|others| == MAX_SOURCES && others == sources && after == others[1..] + [summary]))
  {
    var others := Without(summary.file, sources);
    WithoutAre(summary.file, sources);
    AppendedIsDistinct(others, summary);
    if |others| == MAX_SOURCES {
      FilterFull((s: SourceSummary) => s.file != summary.file, sources);
      TailIsDistinct(others, summary);
    }
  }

  lemma AppendedIsDistinct(others: seq<SourceSummary>, summary: SourceSummary)
    requires DistinctFiles(others) && forall s :: s in others ==> s.file != summary.file
    ensures DistinctFiles(others + [summary])
  {
    forall i | 0 <= i < |others| ensures others[i].file != summary.file {
      assert others[i] in others;
    }
  }

  lemma TailIsDistinct(others: seq<SourceSummary>, summary: SourceSummary)
    requires DistinctFiles(others + [summary]) && others != []
    ensures (others + [summary])[1..] == others[1..] + [summary] && DistinctFiles(others[1..] + [summary])
  {
    var all := others + [summary];
    forall i, j | 0 <= i < j < |others| ensures all[1..][i].file != all[1..][j].file {
      assert all[i + 1].file != all[j + 1].file;
    }
  }

  lemma {:induction false} FilterFull<T>(p: T -> bool, s: seq<T>)
    requires |Filter(p, s)| == |s|
    ensures Filter(p, s) == s
  {
    if s != [] {
      FilterLength(p, s[..|s| - 1]);
      FilterFull(p, s[..|s| - 1]);
      assert s == s[..|s| - 1] + [s[|s| - 1]];
    }
  }

  lemma InspectKeepsSources(tools: Tools, sources: seq<SourceSummary>, relationships: seq<Relationship>, file: string,
                            text: string)
    requires DistinctFiles(sources) && |sources| <= MAX_SOURCES && FactsHaveSources(sources, relationships)
    ensures FactsHaveSources(SourcesAfter(sources, Summary(tools, file, text)),
                             RelationshipsAfter(relationships, sources, file,
                                 ImportFacts(tools, file, SplitLines(text))))
  {
    var summary := Summary(tools, file, text);
    var facts := ImportFacts(tools, file, SplitLines(text));
    var after := RelationshipsAfter(relationships, sources, file, facts);
    var left := SourcesAfter(sources, summary);
    var others := Without(file, sources);
    InspectedIsNeverEvicted(sources, summary);
    WithoutAre(file, sources);
    forall r | r in after && r.Imports? ensures Has(left, r.from) {
      FromAfter(relationships, sources, file, facts, r);
      ImportFactsAre(tools, file, SplitLines(text));
      if r.from == file {
        assert left[|left| - 1].file == file;
      } else {
        var i :| 0 <= i < |sources| && sources[i].file == r.from;
        assert sources[i] in others;
        var j :| 0 <= j < |others| && others[j] == sources[i];
        if left == others + [summary] { assert left[j].file == r.from; } else { assert left[j - 1].file == r.from; }
      }
    }
  }

  lemma FromAfter(relationships: seq<Relationship>, sources: seq<SourceSummary>, file: string, facts: seq<Relationship>,
                  r: Relationship)
    requires r in RelationshipsAfter(relationships, sources, file, facts)
    ensures r in facts || (r in relationships && NotImportOf(file)(r))
    ensures |Without(file, sources)| + 1 > MAX_SOURCES ==> NotImportOf(Without(file, sources)[0].file)(r)
  {
    var all := Filter(NotImportOf(file), relationships) + facts;
    var others := Without(file, sources);
    if |others| + 1 > MAX_SOURCES { FilterMembers(NotImportOf(others[0].file), all); }
    FilterMembers(NotImportOf(file), relationships);
  }

  /** Inspecting keeps everything the model promises about what it remembers. */
  lemma InspectKeepsRemembered(tools: Tools, seen: map<string, string>, sources: seq<SourceSummary>,
                               relationships: seq<Relationship>, file: string, text: string)
    requires Remembered(tools, seen, sources, relationships)
    ensures Remembered(tools, seen[file := text], SourcesAfter(sources, Summary(tools, file, text)),
                       RelationshipsAfter(relationships, sources, file, ImportFacts(tools, file, SplitLines(text))))
  {
    var summary := Summary(tools, file, text);
    var facts := ImportFacts(tools, file, SplitLines(text));
    var after := RelationshipsAfter(relationships, sources, file, facts);
    var left := SourcesAfter(sources, summary);
    InspectedIsNeverEvicted(sources, summary);
    InspectKeepsSources(tools, sources, relationships, file, text);
    WithoutAre(file, sources);
    forall i | 0 <= i < |left| ensures FactsFromText(tools, seen[file := text], left[i], after) {
      InspectSetsFacts(tools, sources, relationships, file, SplitLines(text), left[i].file);
      LeftOver(sources, summary, i);
      if i < |left| - 1 {
        assert left[i] in sources;
        var j :| 0 <= j < |sources| && sources[j] == left[i];
        assert FactsFromText(tools, seen, sources[j], relationships);
      }
    }
  }

  lemma LeftOver(sources: seq<SourceSummary>, summary: SourceSummary, i: nat)
    requires DistinctFiles(sources) && |sources| <= MAX_SOURCES && i < |SourcesAfter(sources, summary)|
    ensures var after, others := SourcesAfter(sources, summary), Without(summary.file, sources);
            && (|others| >= MAX_SOURCES ==> after[i].file != others[0].file)
            && (i < |after| - 1 ==> after[i] in sources && after[i].file != summary.file)
            && (i == |after| - 1 ==> after[i] == summary)
  {
    var after, others := SourcesAfter(sources, summary), Without(summary.file, sources);
    InspectedIsNeverEvicted(sources, summary);
    WithoutAre(summary.file, sources);
    if i < |after| - 1 {
      var k := if after == others + [summary] then i else i + 1;
      assert after[i] == others[k] && others[k] in others;
    } else if others != [] {
      assert others[0] in others;
    }
  }

  // ----- Rescanning -----

  /** A remembered source is kept when its file can be read and its fingerprint is unchanged. */
  predicate Unchanged(tools: Tools, read: string -> Option<string>, source: SourceSummary) {
    read(source.file).Some? && tools.hash(read(source.file).value) == source.fingerprint
  }

  function Retained(tools: Tools, read: string -> Option<string>, sources: seq<SourceSummary>): seq<SourceSummary> {
    Filter((s: SourceSummary) => Unchanged(tools, read, s), sources)
  }

  function RetainedFacts(sources: seq<SourceSummary>, relationships: seq<Relationship>): seq<Relationship> {
    if sources == [] then [] else
    RetainedFacts(sources[..|sources| - 1], relationships) + FactsOf(sources[|sources| - 1].file, relationships)
  }

  lemma RetainedSnoc(tools: Tools, read: string -> Option<string>, sources: seq<SourceSummary>, i: nat)
    requires i < |sources|
    ensures Retained(tools, read, sources[..i + 1]) ==
            if Unchanged(tools, read, sources[i]) then Retained(tools, read, sources[..i]) + [sources[i]]
            else Retained(tools, read, sources[..i])
  {
    assert sources[..i + 1][..i] == sources[..i];
  }

  lemma RetainedFactsSnoc(sources: seq<SourceSummary>, last: SourceSummary, relationships: seq<Relationship>,
                          found: seq<Relationship>)
    ensures found + RetainedFacts(sources + [last], relationships)
              == found + RetainedFacts(sources, relationships) + FactsOf(last.file, relationships)
  {
    assert (sources + [last])[..|sources|] == sources;
  }

  method RetainSources(tools: Tools, read: string -> Option<string>, sources: seq<SourceSummary>,
                       relationships: seq<Relationship>, found: seq<Relationship>)
    returns (sources': seq<SourceSummary>, relationships': seq<Relationship>)
    ensures sources' == Retained(tools, read, sources)
    ensures relationships' == found + RetainedFacts(sources', relationships)
  {
    sources', relationships' := [], found;
    for i := 0 to |sources|
      invariant sources' == Retained(tools, read, sources[..i])
      invariant relationships' == found + RetainedFacts(sources', relationships)
    {
      RetainedSnoc(tools, read, sources, i);
      var current := read(sources[i].file);
      if current.Some? && tools.hash(current.value) == sources[i].fingerprint {
        RetainedFactsSnoc(sources', sources[i], relationships, found);
        sources' := sources' + [sources[i]];
        relationships' := relationships' + FactsOf(sources[i].file, relationships);
      }
    }
    assert sources[..|sources|] == sources;
  }

  lemma {:induction false} RetainedAre(tools: Tools, read: string -> Option<string>, sources: seq<SourceSummary>)
    requires DistinctFiles(sources)
    ensures DistinctFiles(Retained(tools, read, sources)) && |Retained(tools, read, sources)| <= |sources|
    ensures forall s :: s in Retained(tools, read, sources) <==> s in sources && Unchanged(tools, read, s)
  {
    if sources != [] {
      var init := sources[..|sources| - 1];
      RetainedAre(tools, read, init);
      assert sources == init + [sources[|sources| - 1]];
      forall i | 0 <= i < |Retained(tools, read, init)|
          ensures Retained(tools, read, init)[i].file != sources[|sources| - 1].file {
        assert Retained(tools, read, init)[i] in Retained(tools, read, init);
      }
    }
  }

  lemma FactsOfMore(found: seq<Relationship>, relationships: seq<Relationship>, g: string, f: string)
    ensures FactsOf(f, found + FactsOf(g, relationships)) == FactsOf(f, found) + if g == f
              then FactsOf(f, relationships) else []
  {
    FilterAppend(ImportOf(f), found, FactsOf(g, relationships));
    FilterNested(ImportOf(f), ImportOf(g), relationships);
  }

  lemma {:induction false} RetainedFactsOf(sources: seq<SourceSummary>, relationships: seq<Relationship>, f: string)
    requires DistinctFiles(sources)
    ensures FactsOf(f, RetainedFacts(sources, relationships)) == if Has(sources, f) then FactsOf(f, relationships)
              else []
  {
    if sources != [] {
      var init, last := sources[..|sources| - 1], sources[|sources| - 1];
      RetainedFactsOf(init, relationships, f);
      FactsOfMore(RetainedFacts(init, relationships), relationships, last.file, f);
      Neutral(FactsOf(f, relationships));
      HasSnoc(init, last, f);
      assert sources == init + [last];
    }
  }

  lemma HasSnoc(init: seq<SourceSummary>, last: SourceSummary, f: string)
    ensures Has(init + [last], f) <==> Has(init, f) || last.file == f
  {
    if Has(init, f) {
      var i :| 0 <= i < |init| && init[i].file == f;
      assert (init + [last])[i].file == f;
    }
    assert (init + [last])[|init|] == last;
  }

  lemma FactsBeforeCut(kept: seq<SourceSummary>, relationships: seq<Relationship>, found: seq<Relationship>, f: string)
    requires DistinctFiles(kept) && forall r :: r in found ==> r.Dependency?
    ensures FactsOf(f, found + RetainedFacts(kept, relationships)) == if Has(kept, f) then FactsOf(f, relationships)
              else []
  {
    RetainedFactsOf(kept, relationships, f);
    FilterAppend(ImportOf(f), found, RetainedFacts(kept, relationships));
    FilterNone(ImportOf(f), found);
    Neutral(FactsOf(f, RetainedFacts(kept, relationships)));
  }

  function Rescanned(tools: Tools, read: string -> Option<string>, sources: seq<SourceSummary>,
                     relationships: seq<Relationship>, found: seq<Relationship>): seq<Relationship> {
    Take(found + RetainedFacts(Retained(tools, read, sources), relationships), MAX_RELATIONSHIPS)
  }

  /** After a rescan, the facts of a file are the first of those it had if it is unchanged, and none otherwise. */
  lemma RescanCutsFacts(tools: Tools, read: string -> Option<string>, sources: seq<SourceSummary>,
                        relationships: seq<Relationship>, found: seq<Relationship>, f: string)
    requires DistinctFiles(sources) && forall r :: r in found ==> r.Dependency?
    ensures PrefixOf(FactsOf(f, Rescanned(tools, read, sources, relationships, found)),
                     if Has(Retained(tools, read, sources), f) then FactsOf(f, relationships) else [])
    ensures |found + RetainedFacts(Retained(tools, read, sources), relationships)| <= MAX_RELATIONSHIPS
              && Has(Retained(tools, read, sources), f) ==>
              FactsOf(f, Rescanned(tools, read, sources, relationships, found)) == FactsOf(f, relationships)
  {
    var kept := Retained(tools, read, sources);
    RetainedAre(tools, read, sources);
    FactsBeforeCut(kept, relationships, found, f);
    FilterPrefix(ImportOf(f), found + RetainedFacts(kept, relationships), MAX_RELATIONSHIPS);
  }

  /** A rescan keeps everything the model promises about what it remembers. */
  lemma RescanKeepsRemembered(tools: Tools, seen: map<string, string>, read: string -> Option<string>,
                              sources: seq<SourceSummary>, relationships: seq<Relationship>, found: seq<Relationship>)
    requires Remembered(tools, seen, sources, relationships) && forall r :: r in found ==> r.Dependency?
    ensures Remembered(tools, seen, Retained(tools, read, sources),
              Rescanned(tools, read, sources, relationships, found))
  {
    var kept := Retained(tools, read, sources);
    var after := Rescanned(tools, read, sources, relationships, found);
    RetainedAre(tools, read, sources);
    forall r | r in after && r.Imports? ensures Has(kept, r.from) {
      RescanCutsFacts(tools, read, sources, relationships, found, r.from);
      FilterMembers(ImportOf(r.from), after);
    }
    forall i | 0 <= i < |kept| ensures FactsFromText(tools, seen, kept[i], after) {
      RescanCutsFacts(tools, read, sources, relationships, found, kept[i].file);
      assert kept[i] in kept;
      var j :| 0 <= j < |sources| && sources[j] == kept[i];
      assert FactsFromText(tools, seen, sources[j], relationships);
    }
  }

  ghost predicate Injective(hash: string -> string) {
    forall s, t :: hash(s) == hash(t) ==> s == t
  }

  /**
   After a rescan every remembered source matches the content on disk: its fingerprint always, and, if the hash has
   no collisions, its import facts are the first ones of the current content.
   */
  lemma RescanAgreesWithDisk(tools: Tools, seen: map<string, string>, read: string -> Option<string>,
                             sources: seq<SourceSummary>, relationships: seq<Relationship>, found: seq<Relationship>,
                                 s: SourceSummary)
    requires Remembered(tools, seen, sources, relationships) && forall r :: r in found ==> r.Dependency?
    requires s in Retained(tools, read, sources)
    ensures read(s.file).Some? && s.fingerprint == tools.hash(read(s.file).value)
    ensures Injective(tools.hash) ==>
              PrefixOf(FactsOf(s.file, Rescanned(tools, read, sources, relationships, found)),
                       ImportFacts(tools, s.file, SplitLines(read(s.file).value)))
  {
    RetainedAre(tools, read, sources);
    RescanKeepsRemembered(tools, seen, read, sources, relationships, found);
    var kept := Retained(tools, read, sources);
    var i :| 0 <= i < |kept| && kept[i] == s;
    assert FactsFromText(tools, seen, kept[i], Rescanned(tools, read, sources, relationships, found));
  }
}
