/**
 Edit grouping: the edit items of one category and file are the maximal runs of its contributing
 events, where a run has no gap of more than two minutes.
 */
module EvidenceGroups {
  import opened Common
  import opened Evidence

  // ----- Which events contribute, stated on the event history alone -----

  predicate AcceptedIn(e: Event, file: string) {
    e.payload == AutocompleteAccepted(file) && e.source == Editor
  }

  /** An editor change within three seconds after a completion accepted in the same file. */
  ghost predicate Echo(p: seq<Event>, i: nat)
    requires i < |p| && p[i].payload.FileChanged?
  {
    exists j :: 0 <= j < i && AcceptedIn(p[j], p[i].payload.file) && Time(p[i]) - Time(p[j]) <= COMPLETION_ECHO_MS
  }

  /** An editor change by the student that is not the echo of a completion. */
  ghost predicate StudentChange(p: seq<Event>, i: nat)
    requires i < |p|
  {
    p[i].payload.FileChanged? && p[i].source == Editor && !Echo(p, i)
  }

  /** What one event contributes to the edit groups; an echo contributes nothing. */
  function ContributionsOf(e: Event, echo: bool): seq<(Key, Event)> {
    match e.payload
    case FileChanged(file) => if e.source == Editor && !echo then [(Key(StudentEdit, file), e)] else []
    case AutocompleteAccepted(file) => if e.source == Editor then [(Key(AutocompleteEdit, file), e)] else []
    case AgentFilesChanged(files) => if e.source == Chat then AgentEntries(files, e) else []
    case _ => []
  }

  ghost function Contributions(p: seq<Event>, i: nat): seq<(Key, Event)>
    requires i < |p|
  {
    ContributionsOf(p[i], p[i].payload.FileChanged? && Echo(p, i))
  }

  ghost function JournalTo(p: seq<Event>, n: nat): seq<(Key, Event)>
    requires n <= |p|
  {
    if n == 0 then [] else JournalTo(p, n - 1) + Contributions(p, n - 1)
  }

  /** Every contribution of the history, in order. */
  ghost function Journal(p: seq<Event>): seq<(Key, Event)> {
    JournalTo(p, |p|)
  }

  function Only(journal: seq<(Key, Event)>, key: Key): seq<Event> {
    if journal == [] then [] else
    var last := journal[|journal| - 1];
    Only(journal[..|journal| - 1], key) + if last.0 == key then [last.1] else []
  }

  // ----- Maximal runs -----

  predicate Near(a: Event, b: Event) {
    Time(b) - Time(a) <= EDIT_GROUP_MS
  }

  function Last<T>(s: seq<T>): T
    requires s != []
  {
    s[|s| - 1]
  }

  /** The runs after one more event: it joins the last run if it is near, and opens a run otherwise. */
  function AppendRun(runs: seq<seq<Event>>, e: Event): (next: seq<seq<Event>>)
    requires forall i :: 0 <= i < |runs| ==> runs[i] != []
    ensures forall i :: 0 <= i < |next| ==> next[i] != []
    ensures next != [] && Last(Last(next)) == e
  {
    if runs != [] && Near(Last(Last(runs)), e)
    then runs[..|runs| - 1] + [Last(runs) + [e]]
    else runs + [[e]]
  }

  function Runs(events: seq<Event>): (runs: seq<seq<Event>>)
    ensures forall i :: 0 <= i < |runs| ==> runs[i] != []
    ensures events != [] ==> runs != [] && Last(Last(runs)) == Last(events)
  {
    if events == [] then [] else AppendRun(Runs(events[..|events| - 1]), Last(events))
  }

  function Flatten(runs: seq<seq<Event>>): seq<Event> {
    if runs == [] then [] else Flatten(runs[..|runs| - 1]) + Last(runs)
  }

  /** Position j of a run is near the position before it. */
  predicate Joined(run: seq<Event>, j: int)
    requires 0 < j < |run|
  {
    Near(run[j - 1], run[j])
  }

  ghost predicate Tight(run: seq<Event>) {
    run != [] && forall j {:trigger Joined(run, j)} :: 0 < j < |run| ==> Joined(run, j)
  }

  /** Run i is not near the run before it. */
  predicate Apart(runs: seq<seq<Event>>, i: int)
    requires 0 < i < |runs| && runs[i - 1] != [] && runs[i] != []
  {
    !Near(Last(runs[i - 1]), runs[i][0])
  }

  /** A partition into non-empty runs: gaps inside a run are near, gaps between runs are not. */
  ghost predicate MaximalRuns(runs: seq<seq<Event>>) {
    && (forall i :: 0 <= i < |runs| ==> Tight(runs[i]))
    && (forall i {:trigger Apart(runs, i)} :: 0 < i < |runs| ==> Apart(runs, i))
  }

  lemma LongerIsTight(run: seq<Event>, e: Event)
    requires Tight(run) && Near(Last(run), e)
    ensures Tight(run + [e])
  {
    forall j | 0 < j < |run + [e]| ensures Joined(run + [e], j) {
      if j < |run| { assert Joined(run, j); }
    }
  }

  lemma FlattenJoined(runs: seq<seq<Event>>, e: Event)
    requires runs != []
    ensures Flatten(runs[..|runs| - 1] + [Last(runs) + [e]]) == Flatten(runs) + [e]
  {
    var next := runs[..|runs| - 1] + [Last(runs) + [e]];
    assert next[..|next| - 1] == runs[..|runs| - 1];
  }

  lemma LongerStaysApart(runs: seq<seq<Event>>, longer: seq<Event>, i: nat)
    requires MaximalRuns(runs) && runs != [] && 0 < i < |runs|
    requires |longer| > 0 && longer[0] == Last(runs)[0]
    ensures (runs[..|runs| - 1] + [longer])[i - 1] != [] && (runs[..|runs| - 1] + [longer])[i] != []
    ensures Apart(runs[..|runs| - 1] + [longer], i)
  {
    assert Apart(runs, i);
  }

  lemma LongerStaysTight(runs: seq<seq<Event>>, longer: seq<Event>, i: nat)
    requires MaximalRuns(runs) && i < |runs| && Tight(longer)
    ensures Tight((runs[..|runs| - 1] + [longer])[i])
  {
    if i < |runs| - 1 { assert Tight(runs[i]); }
  }

  lemma ReplaceLastRun(runs: seq<seq<Event>>, longer: seq<Event>)
    requires MaximalRuns(runs) && runs != [] && Tight(longer) && longer[0] == Last(runs)[0]
    ensures MaximalRuns(runs[..|runs| - 1] + [longer])
  {
    var next := runs[..|runs| - 1] + [longer];
    forall i | 0 <= i < |next| ensures Tight(next[i]) { LongerStaysTight(runs, longer, i); }
    forall i | 0 < i < |next| ensures Apart(next, i) { LongerStaysApart(runs, longer, i); }
  }

  lemma JoinedRunMaximal(runs: seq<seq<Event>>, e: Event)
    requires MaximalRuns(runs) && runs != [] && Near(Last(Last(runs)), e)
    ensures MaximalRuns(runs[..|runs| - 1] + [Last(runs) + [e]])
    ensures Flatten(runs[..|runs| - 1] + [Last(runs) + [e]]) == Flatten(runs) + [e]
  {
    LongerIsTight(Last(runs), e);
    ReplaceLastRun(runs, Last(runs) + [e]);
    FlattenJoined(runs, e);
  }

  lemma OpenedRunMaximal(runs: seq<seq<Event>>, e: Event)
    requires MaximalRuns(runs) && (runs != [] ==> !Near(Last(Last(runs)), e))
    ensures MaximalRuns(runs + [[e]]) && Flatten(runs + [[e]]) == Flatten(runs) + [e]
  {
    var next := runs + [[e]];
    assert next[..|runs|] == runs;
    assert Tight([e]);
    forall i | 0 < i < |next| ensures Apart(next, i) {
      if i < |runs| { assert Apart(runs, i); }
    }
  }

  lemma AppendRunMaximal(runs: seq<seq<Event>>, e: Event)
    requires MaximalRuns(runs)
    ensures MaximalRuns(AppendRun(runs, e))
    ensures Flatten(AppendRun(runs, e)) == Flatten(runs) + [e]
  {
    if runs != [] && Near(Last(Last(runs)), e) { JoinedRunMaximal(runs, e); } else { OpenedRunMaximal(runs, e); }
  }

  /** Every contributing event falls in exactly one run, and the runs are maximal. */
  lemma {:induction false} RunsPartition(events: seq<Event>)
    ensures Flatten(Runs(events)) == events
    ensures MaximalRuns(Runs(events))
  {
    if events != [] {
      RunsPartition(events[..|events| - 1]);
      AppendRunMaximal(Runs(events[..|events| - 1]), Last(events));
      InitAndLast(events);
    }
  }

  lemma InitAndLast<T>(s: seq<T>)
    requires s != []
    ensures s[..|s| - 1] + [Last(s)] == s
  {
  }

  /** There is no other partition into maximal runs. */
  lemma {:induction false} RunsUnique(runs: seq<seq<Event>>)
    requires MaximalRuns(runs)
    ensures runs == Runs(Flatten(runs))
    decreases |Flatten(runs)|
  {
    if runs != [] {
      var before, e := UndoAppend(runs);
      AppendRunMaximal(before, e);
      assert Flatten(runs)[..|Flatten(runs)| - 1] == Flatten(before);
      RunsUnique(before);
    }
  }

  /** Maximal runs come from shorter maximal runs by appending an event. */
  lemma UndoAppend(runs: seq<seq<Event>>) returns (before: seq<seq<Event>>, e: Event)
    requires MaximalRuns(runs) && runs != []
    ensures MaximalRuns(before) && runs == AppendRun(before, e)
  {
    e := Last(Last(runs));
    if |Last(runs)| == 1 {
      before := runs[..|runs| - 1];
      UndoOpen(runs);
    } else {
      before := runs[..|runs| - 1] + [Last(runs)[..|Last(runs)| - 1]];
      ShorterRun(runs);
      UndoJoin(runs);
    }
  }

  lemma UndoOpen(runs: seq<seq<Event>>)
    requires MaximalRuns(runs) && runs != [] && |Last(runs)| == 1
    ensures MaximalRuns(runs[..|runs| - 1]) && runs == AppendRun(runs[..|runs| - 1], Last(Last(runs)))
  {
    var n := |runs| - 1;
    var before := runs[..n];
    InitAndLast(runs[n]);
    InitAndLast(runs);
    if n > 0 { assert Apart(runs, n); }
    forall i | 0 < i < n ensures Apart(before, i) { assert Apart(runs, i); }
  }

  lemma UndoJoin(runs: seq<seq<Event>>)
    requires MaximalRuns(runs) && runs != [] && |Last(runs)| > 1
    ensures runs == AppendRun(runs[..|runs| - 1] + [Last(runs)[..|Last(runs)| - 1]], Last(Last(runs)))
  {
    var n := |runs| - 1;
    var last := runs[n];
    var before := runs[..n] + [last[..|last| - 1]];
    InitAndLast(last);
    InitAndLast(runs);
    assert before[..n] == runs[..n];
    assert Joined(last, |last| - 1);
  }

  lemma ShorterRun(runs: seq<seq<Event>>)
    requires MaximalRuns(runs) && runs != [] && |Last(runs)| > 1
    ensures MaximalRuns(runs[..|runs| - 1] + [Last(runs)[..|Last(runs)| - 1]])
  {
    var n := |runs| - 1;
    var short := runs[n][..|runs[n]| - 1];
    var shorter := runs[..n] + [short];
    forall j | 0 < j < |short| ensures Joined(short, j) {
      assert Joined(runs[n], j);
    }
    forall i | 0 < i < |shorter| ensures Apart(shorter, i) {
      assert Apart(runs, i);
    }
  }

  // ----- The item of a run -----

  function Ids(events: seq<Event>): seq<string> {
    seq(|events|, i requires 0 <= i < |events| => SourceId(events[i]))
  }

  /** Stamped with the run's first event; refers to its first twelve distinct source ids. */
  function RunItem(c: Context, key: Key, run: seq<Event>): Item
    requires run != []
  {
    MakeItem(c, key.category, EditActor(key.category), Observed, Time(run[0]),
        EditSummary(c.host, key.category, key.file), Ids(run))
  }

  function RunItems(c: Context, key: Key, runs: seq<seq<Event>>): seq<Item>
    requires forall i :: 0 <= i < |runs| ==> runs[i] != []
  {
    seq(|runs|, i requires 0 <= i < |runs| => RunItem(c, key, runs[i]))
  }

  /** The output items opened for a group of this key, in order. */
  function Owned(output: seq<Item>, owner: seq<Option<Key>>, key: Key): seq<Item>
    requires |owner| == |output|
  {
    if output == [] then [] else
    var n := |output| - 1;
    Owned(output[..n], owner[..n], key) + if owner[n] == Some(key) then [output[n]] else []
  }

  predicate SingleSpaced(s: string) {
    forall i :: 0 <= i < |s| - 1 ==> s[i] != ' ' || s[i + 1] != ' '
  }

  lemma {:induction false} CollapseSingleSpaces(s: string)
    requires SingleSpaced(s)
    ensures CollapseSpaces(s) == s
  {
    if |s| >= 2 {
      assert s[0] != ' ' || s[0 + 1] != ' ';
      forall i | 0 <= i < |s[1..]| - 1 ensures s[1..][i] != ' ' || s[1..][i + 1] != ' ' {
        assert s[i + 1] != ' ' || s[i + 1 + 1] != ' ';
      }
      CollapseSingleSpaces(s[1..]);
    }
  }

  lemma PrefixAndName(words: string, name: string)
    requires SingleSpaced(words) && forall i :: 0 <= i < |name| ==> name[i] != ' '
    ensures CollapseSpaces(words + name) == words + name
  {
    CollapseSingleSpaces(words + name);
  }

  lemma StudentSummaryIsStable(h: Host, file: string)
    ensures RegroupedSummary(h, Student, file) == EditSummary(h, StudentEdit, file)
  {
    assert SingleSpaced("Student edited ");
    assert "Student" + " " + "edited " == "Student edited " == "Student" + " edited ";
    PrefixAndName("Student edited ", SafeFile(h, file));
  }

  lemma AgentSummaryIsStable(h: Host, file: string)
    ensures RegroupedSummary(h, Agent, file) == EditSummary(h, AgentEdit, file)
  {
    assert SingleSpaced("Agent edited ");
    assert "Agent" + " " + "edited " == "Agent edited " == "Agent" + " edited ";
    PrefixAndName("Agent edited ", SafeFile(h, file));
  }

  lemma CompletionSummaryIsStable(h: Host, file: string)
    ensures RegroupedSummary(h, Mixed, file) == EditSummary(h, AutocompleteEdit, file)
  {
    assert SingleSpaced("Student accepted AI completion in ");
    assert "Student accepted AI completion in" + " " + "" == "Student accepted AI completion in ";
    PrefixAndName("Student accepted AI completion in ", SafeFile(h, file));
  }

  /** Rebuilding the summary when an edit joins its group gives the summary the group opened with. */
  lemma RegroupedSummaryIsStable(h: Host, category: Category, file: string)
    requires EditCategory(category)
    ensures RegroupedSummary(h, EditActor(category), file) == EditSummary(h, category, file)
  {
    match category
    case StudentEdit => StudentSummaryIsStable(h, file);
    case AgentEdit => AgentSummaryIsStable(h, file);
    case AutocompleteEdit => CompletionSummaryIsStable(h, file);
  }

  // ----- What every step keeps -----

  /** The group saved for a key is the key's last run, and its index is the position of that run's item. */
  ghost predicate GroupIsLastRun(s: Scan, key: Key, run: seq<Event>)
    requires run != [] && |s.owner| == |s.output|
  {
    && key in s.grouped
    && var g := s.grouped[key];
       && g.event == Last(run) && g.refs == Ids(run) && g.count == |run|
       && g.index < |s.output|
       && s.owner[g.index] == Some(key)
       && (forall i :: g.index < i < |s.owner| ==> s.owner[i] != Some(key))
  }

  ghost predicate KeyInv(c: Context, s: Scan, journal: seq<(Key, Event)>, key: Key)
    requires |s.owner| == |s.output|
  {
    var runs := Runs(Only(journal, key));
    && Owned(s.output, s.owner, key) == RunItems(c, key, runs)
    && (runs == [] ==> key !in s.grouped)
    && (runs != [] ==> GroupIsLastRun(s, key, Last(runs)))
  }

  ghost predicate GroupInv(c: Context, s: Scan, journal: seq<(Key, Event)>) {
    && |s.owner| == |s.output|
    && (forall key: Key :: key in s.grouped ==> EditCategory(key.category))
    && (forall key: Key :: EditCategory(key.category) ==> KeyInv(c, s, journal, key))
  }

  /** Replacing the last item of a key changes that key's last item and no other key's. */
  lemma {:induction false} OwnedUpdate(output: seq<Item>, owner: seq<Option<Key>>, index: nat, item: Item, key: Key)
    requires |owner| == |output| && index < |output|
    requires owner[index] == Some(key) ==> forall i :: index < i < |owner| ==> owner[i] != Some(key)
    ensures owner[index] != Some(key) ==> Owned(output[index := item], owner, key) == Owned(output, owner, key)
    ensures owner[index] == Some(key) ==>
              && Owned(output, owner, key) != []
              && output[index] == Last(Owned(output, owner, key))
              && Owned(output[index := item], owner, key)
                  == Owned(output, owner, key)[..|Owned(output, owner, key)| - 1] + [item]
  {
    var n := |output| - 1;
    if index == n {
      assert output[index := item][..n] == output[..n];
    } else {
      OwnedUpdate(output[..n], owner[..n], index, item, key);
      assert output[index := item][..n] == output[..n][index := item];
    }
  }

  lemma OnlySnoc(journal: seq<(Key, Event)>, entry: (Key, Event), key: Key)
    ensures Only(journal + [entry], key) == Only(journal, key) + if entry.0 == key then [entry.1] else []
    ensures Runs(Only(journal + [entry], key)) ==
            if entry.0 == key then AppendRun(Runs(Only(journal, key)), entry.1) else Runs(Only(journal, key))
  {
    assert (journal + [entry])[..|journal|] == journal;
    var events := Only(journal, key);
    if entry.0 == key {
      assert (events + [entry.1])[..|events|] == events;
      assert Only(journal + [entry], key) == events + [entry.1];
    } else {
      assert events + [] == events;
    }
  }

  /** An item pushed outside the groups leaves every group as it was. */
  lemma PushKeepsGroups(c: Context, s: Scan, journal: seq<(Key, Event)>, item: Item, s': Scan)
    requires GroupInv(c, s, journal)
    requires s'.output == s.output + [item] && s'.owner == s.owner + [None] && s'.grouped == s.grouped
    ensures GroupInv(c, s', journal)
  {
    forall key: Key | EditCategory(key.category) ensures KeyInv(c, s', journal, key) {
      assert KeyInv(c, s, journal, key);
      var runs := Runs(Only(journal, key));
      if runs != [] { assert GroupIsLastRun(s', key, Last(runs)); }
    }
  }

  /** A saved index always points at its own group's item: the item of the key's last run. */
  lemma IndexPointsAtOwnItem(c: Context, s: Scan, journal: seq<(Key, Event)>, key: Key)
    requires |s.owner| == |s.output| && KeyInv(c, s, journal, key) && key in s.grouped
    ensures s.grouped[key].index < |s.output|
    ensures Runs(Only(journal, key)) != []
    ensures s.output[s.grouped[key].index] == RunItem(c, key, Last(Runs(Only(journal, key))))
  {
    OwnedUpdate(s.output, s.owner, s.grouped[key].index, s.output[s.grouped[key].index], key);
  }

  lemma JoinedItemIsRunItem(c: Context, key: Key, run: seq<Event>, e: Event)
    requires run != [] && EditCategory(key.category)
    ensures JoinedItem(c, key, RunItem(c, key, run), Ids(run) + [SourceId(e)]) == RunItem(c, key, run + [e])
  {
    RegroupedSummaryIsStable(c.host, key.category, key.file);
    assert Ids(run + [e]) == Ids(run) + [SourceId(e)];
  }

  lemma RunItemsJoin(c: Context, key: Key, runs: seq<seq<Event>>, e: Event)
    requires (forall i :: 0 <= i < |runs| ==> runs[i] != []) && runs != [] && Near(Last(Last(runs)), e)
    ensures RunItems(c, key, AppendRun(runs, e)) == RunItems(c, key, runs)[..|runs| - 1]
              + [RunItem(c, key, Last(runs) + [e])]
    ensures Last(AppendRun(runs, e)) == Last(runs) + [e]
  {
  }

  lemma RunItemsOpen(c: Context, key: Key, runs: seq<seq<Event>>, e: Event)
    requires (forall i :: 0 <= i < |runs| ==> runs[i] != []) && (runs != [] ==> !Near(Last(Last(runs)), e))
    ensures RunItems(c, key, AppendRun(runs, e)) == RunItems(c, key, runs) + [OpenedItem(c, key, e)]
    ensures Last(AppendRun(runs, e)) == [e]
  {
    assert Ids([e]) == [SourceId(e)];
  }

  /** s1 is s with e joined to the group of key. */
  ghost predicate JoinedTo(c: Context, s: Scan, key: Key, e: Event, s1: Scan) {
    && Joins(s, key, e)
    && var g := s.grouped[key];
       && s1.output == s.output[g.index := JoinedItem(c, key, s.output[g.index], g.refs + [SourceId(e)])]
       && s1.owner == s.owner
       && s1.grouped == s.grouped[key := Group(e, g.refs + [SourceId(e)], g.count + 1, g.index)]
  }

  /** s1 is s with a group opened for key by e. */
  ghost predicate OpenedIn(c: Context, s: Scan, key: Key, e: Event, s1: Scan) {
    && !Joins(s, key, e)
    && s1.output == s.output + [OpenedItem(c, key, e)]
    && s1.owner == s.owner + [Some(key)]
    && s1.grouped == s.grouped[key := Group(e, [SourceId(e)], 1, |s.output|)]
  }

  lemma JoinKeepsKey(c: Context, s: Scan, journal: seq<(Key, Event)>, key: Key, e: Event, s1: Scan)
    requires |s.owner| == |s.output| && KeyInv(c, s, journal, key) && EditCategory(key.category)
               && JoinedTo(c, s, key, e, s1)
    ensures KeyInv(c, s1, journal + [(key, e)], key)
  {
    var runs, index := Runs(Only(journal, key)), s.grouped[key].index;
    IndexPointsAtOwnItem(c, s, journal, key);
    JoinedItemIsRunItem(c, key, Last(runs), e);
    OnlySnoc(journal, (key, e), key);
    RunItemsJoin(c, key, runs, e);
    OwnedUpdate(s.output, s.owner, index, s1.output[index], key);
    assert GroupIsLastRun(s1, key, Last(runs) + [e]) by {
      assert Ids(Last(runs) + [e]) == Ids(Last(runs)) + [SourceId(e)];
    }
  }

  lemma OpenKeepsKey(c: Context, s: Scan, journal: seq<(Key, Event)>, key: Key, e: Event, s1: Scan)
    requires |s.owner| == |s.output| && KeyInv(c, s, journal, key) && OpenedIn(c, s, key, e, s1)
    requires key in s.grouped ==> s.grouped[key].index < |s.output|
    ensures KeyInv(c, s1, journal + [(key, e)], key)
  {
    var runs := Runs(Only(journal, key));
    OnlySnoc(journal, (key, e), key);
    RunItemsOpen(c, key, runs, e);
    assert GroupIsLastRun(s1, key, [e]) by {
      assert Ids([e]) == [SourceId(e)];
    }
  }

  lemma JoinKeepsOtherKey(c: Context, s: Scan, journal: seq<(Key, Event)>, key: Key, e: Event, s1: Scan, other: Key)
    requires |s.owner| == |s.output| && KeyInv(c, s, journal, key) && KeyInv(c, s, journal, other) && other != key
    requires JoinedTo(c, s, key, e, s1)
    ensures KeyInv(c, s1, journal + [(key, e)], other)
  {
    var index := s.grouped[key].index;
    OnlySnoc(journal, (key, e), other);
    assert s.owner[index] == Some(key);
    OwnedUpdate(s.output, s.owner, index, s1.output[index], other);
    var runs := Runs(Only(journal, other));
    if runs != [] { assert GroupIsLastRun(s1, other, Last(runs)); }
  }

  lemma OpenKeepsOtherKey(c: Context, s: Scan, journal: seq<(Key, Event)>, key: Key, e: Event, s1: Scan, other: Key)
    requires |s.owner| == |s.output| && KeyInv(c, s, journal, other) && other != key
    requires OpenedIn(c, s, key, e, s1)
    ensures |s1.owner| == |s1.output| && KeyInv(c, s1, journal + [(key, e)], other)
  {
    OnlySnoc(journal, (key, e), other);
    var runs := Runs(Only(journal, other));
    if runs != [] { assert GroupIsLastRun(s1, other, Last(runs)); }
  }

  lemma EditKeepsKey(c: Context, s: Scan, journal: seq<(Key, Event)>, key: Key, e: Event, s1: Scan, other: Key)
    requires |s.owner| == |s.output| && KeyInv(c, s, journal, key) && KeyInv(c, s, journal, other)
               && EditCategory(key.category)
    requires JoinedTo(c, s, key, e, s1) || OpenedIn(c, s, key, e, s1)
    ensures |s1.owner| == |s1.output|
    ensures KeyInv(c, s1, journal + [(key, e)], other)
  {
    if other == key {
      if Joins(s, key, e) {
        JoinKeepsKey(c, s, journal, key, e, s1);
      } else {
        if key in s.grouped { IndexPointsAtOwnItem(c, s, journal, key); }
        OpenKeepsKey(c, s, journal, key, e, s1);
      }
    } else {
      if Joins(s, key, e) {
        JoinKeepsOtherKey(c, s, journal, key, e, s1, other);
      } else {
        OpenKeepsOtherKey(c, s, journal, key, e, s1, other);
      }
    }
  }

  /** Recording one contribution keeps the correspondence between groups and runs. */
  lemma EditKeepsGroups(c: Context, s: Scan, journal: seq<(Key, Event)>, key: Key, e: Event)
    requires GroupInv(c, s, journal) && EditCategory(key.category)
    ensures GroupInv(c, Edit(c, s, key, e), journal + [(key, e)])
  {
    var s1 := Edit(c, s, key, e);
    assert KeyInv(c, s, journal, key);
    forall other: Key | EditCategory(other.category)
      ensures |s1.owner| == |s1.output| && KeyInv(c, s1, journal + [(key, e)], other)
    {
      EditKeepsKey(c, s, journal, key, e, s1, other);
    }
  }

  function AgentEntries(files: seq<string>, e: Event): seq<(Key, Event)> {
    seq(|files|, k requires 0 <= k < |files| => (Key(AgentEdit, files[k]), e))
  }

  lemma GroupInvSameGroups(c: Context, s: Scan, s': Scan, journal: seq<(Key, Event)>)
    requires GroupInv(c, s, journal)
    requires s'.output == s.output && s'.owner == s.owner && s'.grouped == s.grouped
    ensures GroupInv(c, s', journal)
  {
    forall key: Key | EditCategory(key.category) ensures KeyInv(c, s', journal, key) {
      assert KeyInv(c, s, journal, key);
    }
  }

  lemma AgentEditKeepsGroups(c: Context, s: Scan, journal: seq<(Key, Event)>, file: string, e: Event,
                             edits: map<string, Event>)
    requires GroupInv(c, s, journal)
    ensures GroupInv(c, Edit(c, s, Key(AgentEdit, file), e).(lastAgentEdit := edits),
              journal + [(Key(AgentEdit, file), e)])
  {
    var key := Key(AgentEdit, file);
    EditKeepsGroups(c, s, journal, key, e);
    GroupInvSameGroups(c, Edit(c, s, key, e), Edit(c, s, key, e).(lastAgentEdit := edits), journal + [(key, e)]);
  }

  lemma AgentEntriesSnoc(journal: seq<(Key, Event)>, files: seq<string>, e: Event)
    requires files != []
    ensures var n := |files| - 1;
            journal + AgentEntries(files, e) == journal + AgentEntries(files[..n], e) + [(Key(AgentEdit, files[n]), e)]
  {
    var n := |files| - 1;
    assert AgentEntries(files, e) == AgentEntries(files[..n], e) + [(Key(AgentEdit, files[n]), e)];
  }

  lemma {:induction false} AgentEditsKeepGroups(c: Context, s: Scan, journal: seq<(Key, Event)>, files: seq<string>,
                                                e: Event)
    requires GroupInv(c, s, journal)
    ensures GroupInv(c, AgentEdits(c, s, files, e), journal + AgentEntries(files, e))
  {
    if files == [] {
      assert journal + AgentEntries(files, e) == journal;
    } else {
      var n := |files| - 1;
      var s1, journal1 := AgentEdits(c, s, files[..n], e), journal + AgentEntries(files[..n], e);
      AgentEditsKeepGroups(c, s, journal, files[..n], e);
      AgentEditKeepsGroups(c, s1, journal1, files[n], e, s1.lastAgentEdit[files[n] := e]);
      AgentEntriesSnoc(journal, files, e);
    }
  }

  // ----- The pass and its contributions -----

  ghost predicate TimeSorted(p: seq<Event>) {
    forall i, j :: 0 <= i < j < |p| ==> Time(p[i]) <= Time(p[j])
  }

  ghost predicate LastAccepted(p: seq<Event>, file: string, j: int) {
    0 <= j < |p| && AcceptedIn(p[j], file) && forall i :: j < i < |p| ==> !AcceptedIn(p[i], file)
  }

  ghost predicate CompletionInv(p: seq<Event>, s: Scan) {
    && (forall file :: file in s.lastAutocomplete ==>
        exists j :: LastAccepted(p, file, j) && s.lastAutocomplete[file] == p[j])
    && (forall file, j :: file !in s.lastAutocomplete && 0 <= j < |p| ==> !AcceptedIn(p[j], file))
  }

  /** Agent edits touch the output, the groups and the last agent edits only. */
  lemma {:induction false} AgentEditsFrame(c: Context, s: Scan, files: seq<string>, e: Event)
    ensures var s1 := AgentEdits(c, s, files, e);
            s1 == s.(output := s1.output, owner := s1.owner, grouped := s1.grouped, lastAgentEdit := s1.lastAgentEdit)
  {
    if files != [] {
      AgentEditsFrame(c, s, files[..|files| - 1], e);
    }
  }

  /** Two states that agree on what is remembered between events about completions and agent edits. */
  predicate SameMemory(s: Scan, s1: Scan) {
    s1.lastAutocomplete == s.lastAutocomplete && s1.lastAgentEdit == s.lastAgentEdit && s1.revised == s.revised
  }

  predicate EditEvent(e: Event) {
    e.payload.FileChanged? || e.payload.AutocompleteAccepted? || e.payload.AgentFilesChanged?
  }

  /** The state after a step that is no edit: some items pushed outside the groups. */
  predicate Pushes(s: Scan, s1: Scan, more: seq<Item>) {
    && s1.output == s.output + more && s1.owner == s.owner + Unowned(|more|)
    && s1.grouped == s.grouped
  }

  /** Categories of items that relate several events. */
  predicate DerivedCategory(category: Category) {
    category == FixVerified || category == FixAttempted || category == RevisedAgentWork
  }

  predicate NoEdits(items: seq<Item>) {
    forall i :: 0 <= i < |items| ==> !EditCategory(items[i].category)
  }

  /** At most one item, of a category that is neither an edit nor derived. */
  predicate OnePlain(items: seq<Item>) {
    |items| <= 1 && forall i :: 0 <= i < |items| ==>
        !EditCategory(items[i].category) && !DerivedCategory(items[i].category)
  }

  lemma PassPushes(c: Context, s: Scan, e: Event) returns (more: seq<Item>)
    ensures SameMemory(s, Pass(c, s, e)) && Pushes(s, Pass(c, s, e), more) && NoEdits(more)
  {
    var s1 := Emit(s, [PassedItem(c, e)]);
    more := [PassedItem(c, e)] + VerifiedItems(c, s1, e);
    assert Unowned(|more|) == Unowned(1) + Unowned(|VerifiedItems(c, s1, e)|);
  }

  lemma ProgressPushes(c: Context, s: Scan, approved: bool, e: Event) returns (more: seq<Item>)
    ensures SameMemory(s, Progress(c, s, approved, e)) && Pushes(s, Progress(c, s, approved, e), more) && OnePlain(more)
  {
    more := if s.planSeen && approved && !s.planApproved then [ApprovalItem(c, e)] else [];
  }

  lemma LearnTurnPushes(c: Context, s: Scan, learnMode: bool, e: Event) returns (more: seq<Item>)
    ensures SameMemory(s, LearnTurn(c, s, learnMode, e)) && Pushes(s, LearnTurn(c, s, learnMode, e), more)
              && OnePlain(more)
  {
    more := if learnMode && !s.learnUsed then [LearnItem(c, e)] else [];
  }

  lemma FailPushes(c: Context, s: Scan, e: Event) returns (more: seq<Item>)
    ensures SameMemory(s, Fail(c, s, e)) && Pushes(s, Fail(c, s, e), more) && OnePlain(more)
  {
    more := [FailedItem(c, e)];
  }

  lemma PracticePushes(c: Context, s: Scan, e: Event) returns (more: seq<Item>)
    ensures SameMemory(s, Emit(s, [PracticeItem(c, e)])) && Pushes(s, Emit(s, [PracticeItem(c, e)]), more)
              && OnePlain(more)
  {
    more := [PracticeItem(c, e)];
  }

  lemma NothingPushed(s: Scan) returns (more: seq<Item>)
    ensures SameMemory(s, s) && Pushes(s, s, more) && OnePlain(more)
  {
    more := [];
    assert Unowned(0) == [];
  }

  /** The steps that are not edits push items outside the groups, and remember nothing about edits. */
  lemma OtherStepPushes(c: Context, s: Scan, e: Event) returns (more: seq<Item>)
    requires !EditEvent(e)
    ensures SameMemory(s, Step(c, s, e)) && Pushes(s, Step(c, s, e), more) && NoEdits(more)
    ensures !e.payload.TestPassed? ==> OnePlain(more)
  {
    match e.payload
    case LearningProgress(approved) => more := ProgressPushes(c, s, approved, e);
    case TestFailed => more := FailPushes(c, s, e);
    case TestPassed => more := PassPushes(c, s, e);
    case ChatPrompted(learnMode) => more := LearnTurnPushes(c, s, learnMode, e);
    case QuestionCompleted => more := PracticePushes(c, s, e);
    case OtherActivity => more := NothingPushed(s);
  }

  lemma EditorChangeMemory(c: Context, s: Scan, file: string, e: Event)
    ensures EditorChange(c, s, file, e).lastAutocomplete == s.lastAutocomplete
    ensures EditorChange(c, s, file, e).lastAgentEdit == s.lastAgentEdit
  {
    var s1 := Edit(c, s, Key(StudentEdit, file), e);
    assert SameMemory(s, s1);
    var s2 := Revise(c, s1, file, e);
    assert s2.lastAutocomplete == s1.lastAutocomplete && s2.lastAgentEdit == s1.lastAgentEdit;
  }

  /** Only an accepted completion changes what is remembered about completions. */
  lemma CompletionFrame(c: Context, s: Scan, e: Event)
    ensures Step(c, s, e).lastAutocomplete ==
            if e.payload.AutocompleteAccepted? && e.source == Editor then s.lastAutocomplete[e.payload.file := e]
                else s.lastAutocomplete
  {
    match e.payload
    case FileChanged(file) => EditorChangeMemory(c, s, file, e);
    case AgentFilesChanged(files) => AgentEditsFrame(c, s, files, e);
    case AutocompleteAccepted(file) =>
    case _ => var _ := OtherStepPushes(c, s, e);
  }

  lemma CompletionStep(p: seq<Event>, s: Scan, e: Event, s1: Scan)
    requires CompletionInv(p, s)
    requires s1.lastAutocomplete ==
             if e.payload.AutocompleteAccepted? && e.source == Editor then s.lastAutocomplete[e.payload.file := e]
                 else s.lastAutocomplete
    ensures CompletionInv(p + [e], s1)
  {
    var p1 := p + [e];
    forall file | file in s1.lastAutocomplete
      ensures exists j :: LastAccepted(p1, file, j) && s1.lastAutocomplete[file] == p1[j]
    {
      if AcceptedIn(e, file) {
        assert LastAccepted(p1, file, |p|);
      } else {
        var j :| LastAccepted(p, file, j) && s.lastAutocomplete[file] == p[j];
        assert LastAccepted(p1, file, j);
      }
    }
  }

  lemma {:induction false} CompletionHolds(c: Context, p: seq<Event>)
    ensures CompletionInv(p, Run(c, p))
  {
    if p != [] {
      var n := |p| - 1;
      CompletionHolds(c, p[..n]);
      CompletionFrame(c, Run(c, p[..n]), p[n]);
      CompletionStep(p[..n], Run(c, p[..n]), p[n], Run(c, p));
      InitAndLast(p);
    }
  }

  /** The remembered completion decides suppression as the history does. */
  lemma EchoIsExact(c: Context, p: seq<Event>, e: Event)
    requires TimeSorted(p + [e]) && e.payload.FileChanged?
    ensures EchoesCompletion(Run(c, p), e.payload.file, e) <==> Echo(p + [e], |p|)
  {
    var s, p1, file := Run(c, p), p + [e], e.payload.file;
    CompletionHolds(c, p);
    if file in s.lastAutocomplete {
      var j :| LastAccepted(p, file, j) && s.lastAutocomplete[file] == p[j];
      assert p1[j] == p[j];
      forall i | 0 <= i < |p| && AcceptedIn(p1[i], file) ensures Time(p1[i]) <= Time(p1[j]) {
        assert p1[i] == p[i];
      }
    } else {
      forall i | 0 <= i < |p| ensures !AcceptedIn(p1[i], file) {
        assert p1[i] == p[i];
      }
    }
  }

  lemma PrefixEcho(p: seq<Event>, e: Event, i: nat)
    requires i < |p| && p[i].payload.FileChanged?
    ensures Echo(p + [e], i) == Echo(p, i)
  {
    assert forall j :: 0 <= j <= i ==> (p + [e])[j] == p[j];
  }

  lemma {:induction false} JournalPrefix(p: seq<Event>, e: Event, n: nat)
    requires n <= |p|
    ensures JournalTo(p + [e], n) == JournalTo(p, n)
  {
    if n > 0 {
      JournalPrefix(p, e, n - 1);
      assert (p + [e])[n - 1] == p[n - 1];
      if p[n - 1].payload.FileChanged? { PrefixEcho(p, e, n - 1); }
    }
  }

  lemma PushesKeepGroups(c: Context, s: Scan, journal: seq<(Key, Event)>, s1: Scan, more: seq<Item>)
    requires GroupInv(c, s, journal)
    requires Pushes(s, s1, more)
    ensures GroupInv(c, s1, journal)
    decreases |more|
  {
    if more == [] {
      GroupInvSameGroups(c, s, s1, journal);
    } else {
      var n := |more| - 1;
      var s0 := s1.(output := s.output + more[..n], owner := s.owner + Unowned(n));
      assert Unowned(n + 1) == Unowned(n) + [None];
      PushesKeepGroups(c, s, journal, s0, more[..n]);
      PushKeepsGroups(c, s0, journal, more[n], s1);
    }
  }

  lemma EditorChangeKeepsGroups(c: Context, s: Scan, journal: seq<(Key, Event)>, file: string, e: Event)
    requires GroupInv(c, s, journal)
    ensures GroupInv(c, EditorChange(c, s, file, e), journal + [(Key(StudentEdit, file), e)])
  {
    var key := Key(StudentEdit, file);
    var s1 := Edit(c, s, key, e);
    EditKeepsGroups(c, s, journal, key, e);
    RelatedKeepGroups(c, s1, journal + [(key, e)], file, e);
  }

  lemma RevisePushes(c: Context, s: Scan, file: string, e: Event)
    ensures Pushes(s, Revise(c, s, file, e), RevisionItems(c, s, file, e))
  {
  }

  lemma RelatedKeepGroups(c: Context, s: Scan, journal: seq<(Key, Event)>, file: string, e: Event)
    requires GroupInv(c, s, journal)
    ensures GroupInv(c, Attempt(c, Revise(c, s, file, e), e), journal)
  {
    var s1 := Revise(c, s, file, e);
    RevisePushes(c, s, file, e);
    PushesKeepGroups(c, s, journal, s1, RevisionItems(c, s, file, e));
    PushesKeepGroups(c, s1, journal, Attempt(c, s1, e), AttemptItems(c, s1, e));
  }

  lemma StepKeepsGroups(c: Context, s: Scan, journal: seq<(Key, Event)>, e: Event, echo: bool)
    requires GroupInv(c, s, journal)
    requires e.payload.FileChanged? ==> echo == EchoesCompletion(s, e.payload.file, e)
    ensures GroupInv(c, Step(c, s, e), journal + ContributionsOf(e, echo))
  {
    var added := ContributionsOf(e, echo);
    if added == [] { assert journal + added == journal; }
    match e.payload
    case FileChanged(file) => if added != [] { EditorChangeKeepsGroups(c, s, journal, file, e); }
    case AutocompleteAccepted(file) => if added != [] { CompletionKeepsGroups(c, s, journal, file, e); }
    case AgentFilesChanged(files) => if e.source == Chat { AgentEditsKeepGroups(c, s, journal, files, e); }
    case _ => OtherStepKeepsGroups(c, s, journal, e);
  }

  lemma CompletionKeepsGroups(c: Context, s: Scan, journal: seq<(Key, Event)>, file: string, e: Event)
    requires GroupInv(c, s, journal)
    ensures GroupInv(c, Completion(c, s, file, e), journal + [(Key(AutocompleteEdit, file), e)])
  {
    var key := Key(AutocompleteEdit, file);
    EditKeepsGroups(c, s, journal, key, e);
    GroupInvSameGroups(c, Edit(c, s, key, e), Completion(c, s, file, e), journal + [(key, e)]);
  }

  lemma OtherStepKeepsGroups(c: Context, s: Scan, journal: seq<(Key, Event)>, e: Event)
    requires GroupInv(c, s, journal) && !EditEvent(e)
    ensures GroupInv(c, Step(c, s, e), journal)
  {
    var more := OtherStepPushes(c, s, e);
    PushesKeepGroups(c, s, journal, Step(c, s, e), more);
  }

  lemma JournalSnoc(p: seq<Event>, e: Event)
    ensures Journal(p + [e]) == Journal(p) + ContributionsOf(e, e.payload.FileChanged? && Echo(p + [e], |p|))
  {
    JournalPrefix(p, e, |p|);
  }

  lemma GroupsSnoc(c: Context, p: seq<Event>, e: Event)
    requires TimeSorted(p + [e]) && GroupInv(c, Run(c, p), Journal(p))
    ensures GroupInv(c, Run(c, p + [e]), Journal(p + [e]))
  {
    if e.payload.FileChanged? { EchoIsExact(c, p, e); }
    JournalSnoc(p, e);
    StepKeepsGroups(c, Run(c, p), Journal(p), e, e.payload.FileChanged? && Echo(p + [e], |p|));
  }

  lemma {:induction false} GroupsHold(c: Context, p: seq<Event>)
    requires TimeSorted(p)
    ensures GroupInv(c, Run(c, p), Journal(p))
  {
    if p != [] {
      var n := |p| - 1;
      GroupsHold(c, p[..n]);
      InitAndLast(p);
      GroupsSnoc(c, p[..n], p[n]);
    }
  }

  // ----- Which items belong to edit groups -----

  /** An item belongs to a group of its own category if it has an edit category, and to none otherwise. */
  predicate OwnsItem(owner: Option<Key>, item: Item) {
    if EditCategory(item.category) then owner.Some? && owner.value.category == item.category else owner.None?
  }

  ghost predicate OwnersMatch(s: Scan) {
    |s.owner| == |s.output| && forall i :: 0 <= i < |s.output| ==> OwnsItem(s.owner[i], s.output[i])
  }

  lemma EditKeepsOwners(c: Context, s: Scan, key: Key, e: Event)
    requires OwnersMatch(s) && EditCategory(key.category)
    ensures OwnersMatch(Edit(c, s, key, e))
  {
    var s1 := Edit(c, s, key, e);
    forall i | 0 <= i < |s1.output| ensures OwnsItem(s1.owner[i], s1.output[i]) {
      if i < |s.output| { assert OwnsItem(s.owner[i], s.output[i]); }
    }
  }

  lemma {:induction false} AgentEditsKeepOwners(c: Context, s: Scan, files: seq<string>, e: Event)
    requires OwnersMatch(s)
    ensures OwnersMatch(AgentEdits(c, s, files, e))
  {
    if files != [] {
      AgentEditsKeepOwners(c, s, files[..|files| - 1], e);
      EditKeepsOwners(c, AgentEdits(c, s, files[..|files| - 1], e), Key(AgentEdit, files[|files| - 1]), e);
    }
  }

  lemma EditorChangeKeepsOwners(c: Context, s: Scan, file: string, e: Event)
    requires OwnersMatch(s)
    ensures OwnersMatch(EditorChange(c, s, file, e))
  {
    var s1 := Edit(c, s, Key(StudentEdit, file), e);
    EditKeepsOwners(c, s, Key(StudentEdit, file), e);
    var s2 := Revise(c, s1, file, e);
    RevisePushes(c, s1, file, e);
  }

  /** What the steps that are no edits push has no edit category. */
  lemma OtherStepKeepsOwners(c: Context, s: Scan, e: Event)
    requires OwnersMatch(s) && !EditEvent(e)
    ensures OwnersMatch(Step(c, s, e))
  {
    var more := OtherStepPushes(c, s, e);
  }

  lemma StepKeepsOwners(c: Context, s: Scan, e: Event)
    requires OwnersMatch(s)
    ensures OwnersMatch(Step(c, s, e))
  {
    match e.payload
    case FileChanged(file) => EditorChangeKeepsOwners(c, s, file, e);
    case AutocompleteAccepted(file) => EditKeepsOwners(c, s, Key(AutocompleteEdit, file), e);
    case AgentFilesChanged(files) => AgentEditsKeepOwners(c, s, files, e);
    case _ => OtherStepKeepsOwners(c, s, e);
  }

  lemma {:induction false} OwnersHold(c: Context, p: seq<Event>)
    ensures OwnersMatch(Run(c, p))
  {
    if p != [] {
      OwnersHold(c, p[..|p| - 1]);
      StepKeepsOwners(c, Run(c, p[..|p| - 1]), p[|p| - 1]);
    }
  }

  /**
   Edit grouping is the maximal-run partition: for every category and file, the edit items in the
   output are, one for one and in order, the items of the maximal runs of the contributing events.
   Items of edit categories, and no others, belong to a group.
   */
  lemma EditItemsAreMaximalRuns(c: Context, p: seq<Event>, key: Key)
    requires TimeSorted(p) && EditCategory(key.category)
    ensures var s := Run(c, p);
            var events := Only(Journal(p), key);
            && OwnersMatch(s)
            && Owned(s.output, s.owner, key) == RunItems(c, key, Runs(events))
            && Flatten(Runs(events)) == events && MaximalRuns(Runs(events))
            && (key in s.grouped <==> events != [])
            && (key in s.grouped ==>
                s.grouped[key].index < |s.output|
                    && s.output[s.grouped[key].index] == RunItem(c, key, Last(Runs(events))))
  {
    GroupsHold(c, p);
    OwnersHold(c, p);
    var events := Only(Journal(p), key);
    assert KeyInv(c, Run(c, p), Journal(p), key);
    RunsPartition(events);
    if key in Run(c, p).grouped { IndexPointsAtOwnItem(c, Run(c, p), Journal(p), key); }
  }
}
