/**
 Student changes that revise an agent's work: when one is reported, and the file names for which
 the key the pass remembers mistakes one agent edit for another.
 */
module EvidenceRevisions {
  import opened Common
  import opened Evidence
  import opened EvidenceGroups
  import opened EvidenceFixes

  predicate AgentEdited(e: Event, file: string) {
    e.payload.AgentFilesChanged? && e.source == Chat && file in e.payload.files
  }

  ghost predicate LastAgent(p: seq<Event>, n: nat, file: string, a: int)
    requires n <= |p|
  {
    0 <= a < n && AgentEdited(p[a], file) && forall i :: a < i < n ==> !AgentEdited(p[i], file)
  }

  /** The change at i follows, within an hour, the latest agent edit a of the same file. */
  ghost predicate Revision(p: seq<Event>, i: int, a: int) {
    && 0 <= a < i < |p| && StudentChange(p, i)
    && LastAgent(p, i, p[i].payload.file, a) && Time(p[i]) - Time(p[a]) <= RELATED_MS
  }

  ghost predicate RevisedWithKey(p: seq<Event>, i: int, a: int, key: string) {
    Revision(p, i, a) && RevisionKey(p[a], p[i].payload.file) == key
  }

  ghost predicate RevisedBefore(p: seq<Event>, key: string) {
    exists i, a :: RevisedWithKey(p, i, a, key)
  }

  ghost predicate AgentInv(p: seq<Event>, edits: map<string, Event>) {
    && (forall file :: file in edits ==> exists a :: LastAgent(p, |p|, file, a) && edits[file] == p[a])
    && (forall file, a :: file !in edits && 0 <= a < |p| ==> !AgentEdited(p[a], file))
  }

  ghost predicate RevisedInv(p: seq<Event>, revised: set<string>) {
    forall key :: key in revised <==> RevisedBefore(p, key)
  }

  // ----- The latest agent edit -----

  /** Each of the files is recorded as edited by e. */
  function Record(edits: map<string, Event>, files: seq<string>, e: Event): map<string, Event> {
    edits + map file | file in files :: e
  }

  lemma RecordSnoc(edits: map<string, Event>, files: seq<string>, e: Event)
    requires files != []
    ensures Record(edits, files[..|files| - 1], e)[Last(files) := e] == Record(edits, files, e)
  {
    InitAndLast(files);
  }

  lemma {:induction false} AgentEditsRecorded(c: Context, s: Scan, files: seq<string>, e: Event)
    ensures AgentEdits(c, s, files, e).lastAgentEdit == Record(s.lastAgentEdit, files, e)
  {
    if files == [] {
      assert Record(s.lastAgentEdit, files, e) == s.lastAgentEdit;
    } else {
      AgentEditsRecorded(c, s, files[..|files| - 1], e);
      RecordSnoc(s.lastAgentEdit, files, e);
    }
  }

  function AgentAfter(edits: map<string, Event>, e: Event): map<string, Event> {
    if e.payload.AgentFilesChanged? && e.source == Chat then Record(edits, e.payload.files, e) else edits
  }

  lemma StepAgent(c: Context, s: Scan, e: Event)
    ensures Step(c, s, e).lastAgentEdit == AgentAfter(s.lastAgentEdit, e)
  {
    match e.payload
    case FileChanged(file) => EditorChangeMemory(c, s, file, e);
    case AutocompleteAccepted(file) => assert SameMemory(s, Edit(c, s, Key(AutocompleteEdit, file), e));
    case AgentFilesChanged(files) => AgentEditsRecorded(c, s, files, e);
    case _ => var _ := OtherStepPushes(c, s, e);
  }

  lemma AgentStep(p: seq<Event>, edits: map<string, Event>, e: Event)
    requires AgentInv(p, edits)
    ensures AgentInv(p + [e], AgentAfter(edits, e))
  {
    var p1, after := p + [e], AgentAfter(edits, e);
    forall file | file in after ensures exists a :: LastAgent(p1, |p1|, file, a) && after[file] == p1[a] {
      if AgentEdited(e, file) {
        assert LastAgent(p1, |p1|, file, |p|);
      } else {
        var a :| LastAgent(p, |p|, file, a) && edits[file] == p[a];
        assert LastAgent(p1, |p1|, file, a);
      }
    }
  }

  // ----- The revisions already reported -----

  function RevisedAfter(s: Scan, e: Event): set<string> {
    if Changes(s, e) && RevisesAgent(s, e.payload.file, e)
    then s.revised + {RevisionKey(s.lastAgentEdit[e.payload.file], e.payload.file)} else s.revised
  }

  lemma EditorChangeRevised(c: Context, s: Scan, file: string, e: Event)
    ensures EditorChange(c, s, file, e).revised ==
            if RevisesAgent(s, file, e) then s.revised + {RevisionKey(s.lastAgentEdit[file], file)} else s.revised
  {
    var s1 := Edit(c, s, Key(StudentEdit, file), e);
    assert SameMemory(s, s1);
    var s2 := Revise(c, s1, file, e);
    assert Attempt(c, s2, e).revised == s2.revised;
  }

  lemma StepRevised(c: Context, s: Scan, e: Event)
    ensures Step(c, s, e).revised == RevisedAfter(s, e)
  {
    match e.payload
    case FileChanged(file) => EditorChangeRevised(c, s, file, e);
    case AutocompleteAccepted(file) =>
    case AgentFilesChanged(files) => AgentEditsFrame(c, s, files, e);
    case _ => var _ := OtherStepPushes(c, s, e);
  }

  lemma RevisionInPrefix(p: seq<Event>, e: Event, i: int, a: int)
    requires i < |p|
    ensures Revision(p + [e], i, a) == Revision(p, i, a)
  {
    if 0 <= i { PrefixStudentChange(p, e, i); }
    assert forall j :: 0 <= j < |p| ==> (p + [e])[j] == p[j];
  }

  lemma RevisedBeforeGrows(p: seq<Event>, e: Event, key: string)
    ensures RevisedBefore(p + [e], key) <==> RevisedBefore(p, key) || exists a :: RevisedWithKey(p + [e], |p|, a, key)
  {
    var p1 := p + [e];
    if RevisedBefore(p, key) {
      var i, a :| RevisedWithKey(p, i, a, key);
      RevisionInPrefix(p, e, i, a);
      assert RevisedWithKey(p1, i, a, key);
    }
    if RevisedBefore(p1, key) {
      var i, a :| RevisedWithKey(p1, i, a, key);
      if i < |p| {
        RevisionInPrefix(p, e, i, a);
        assert RevisedWithKey(p, i, a, key);
      }
    }
  }

  /** Where the memory of agent edits is right, the pass finds the revised agent edit the history holds. */
  lemma RevisionIsExact(p: seq<Event>, s: Scan, e: Event)
    requires AgentInv(p, s.lastAgentEdit) && (Changes(s, e) <==> StudentChange(p + [e], |p|))
    ensures forall a :: Revision(p + [e], |p|, a) ==>
              Changes(s, e) && e.payload.file in s.lastAgentEdit && s.lastAgentEdit[e.payload.file] == p[a]
                  && Time(e) - Time(p[a]) <= RELATED_MS
    ensures Changes(s, e) && e.payload.file in s.lastAgentEdit
              && Time(e) - Time(s.lastAgentEdit[e.payload.file]) <= RELATED_MS ==>
              exists a :: Revision(p + [e], |p|, a)
  {
    var p1 := p + [e];
    assert p1[|p|] == e;
    forall a | Revision(p1, |p|, a)
      ensures e.payload.file in s.lastAgentEdit && s.lastAgentEdit[e.payload.file] == p[a]
    {
      var file := e.payload.file;
      assert p1[a] == p[a] && AgentEdited(p[a], file);
      assert file in s.lastAgentEdit;
      var b :| LastAgent(p, |p|, file, b) && s.lastAgentEdit[file] == p[b];
      assert p1[b] == p[b] && AgentEdited(p1[b], file);
    }
    if Changes(s, e) && e.payload.file in s.lastAgentEdit
        && Time(e) - Time(s.lastAgentEdit[e.payload.file]) <= RELATED_MS {
      var a :| LastAgent(p, |p|, e.payload.file, a) && s.lastAgentEdit[e.payload.file] == p[a];
      assert forall j :: 0 <= j < |p| ==> p1[j] == p[j];
      assert Revision(p1, |p|, a);
    }
  }

  lemma RevisedStep(p: seq<Event>, s: Scan, e: Event)
    requires AgentInv(p, s.lastAgentEdit) && RevisedInv(p, s.revised)
    requires Changes(s, e) <==> StudentChange(p + [e], |p|)
    ensures RevisedInv(p + [e], RevisedAfter(s, e))
  {
    RevisionIsExact(p, s, e);
    var p1 := p + [e];
    assert p1[|p|] == e;
    forall key ensures key in RevisedAfter(s, e) <==> RevisedBefore(p1, key) {
      RevisedBeforeGrows(p, e, key);
      if exists a :: RevisedWithKey(p1, |p|, a, key) {
        var a :| RevisedWithKey(p1, |p|, a, key);
        assert p1[a] == p[a];
      }
      if key in RevisedAfter(s, e) && key !in s.revised {
        var a :| Revision(p1, |p|, a);
        assert p1[a] == p[a];
        assert RevisedWithKey(p1, |p|, a, key);
      }
    }
  }

  lemma {:induction false} RevisionsHold(c: Context, p: seq<Event>)
    requires TimeSorted(p)
    ensures AgentInv(p, Run(c, p).lastAgentEdit) && RevisedInv(p, Run(c, p).revised)
  {
    if p != [] {
      var q, e := p[..|p| - 1], p[|p| - 1];
      InitAndLast(p);
      RevisionsHold(c, q);
      ChangesIsExact(c, q, e);
      RevisedStep(q, Run(c, q), e);
      AgentStep(q, Run(c, q).lastAgentEdit, e);
      StepAgent(c, Run(c, q), e);
      StepRevised(c, Run(c, q), e);
    }
  }

  lemma RevisionOutput(c: Context, s: Scan, e: Event)
    requires e.payload.FileChanged?
    ensures var s1 := Step(c, s, e);
            if Changes(s, e) && RevisesAgent(s, e.payload.file, e)
            then exists k ::
              |s.output| <= k < |s1.output|
              && s1.output[k] == RevisionItem(c, s.lastAgentEdit[e.payload.file], e.payload.file, e)
            else forall k :: |s.output| <= k < |s1.output| ==> s1.output[k].category != RevisedAgentWork
  {
    var file := e.payload.file;
    if Changes(s, e) {
      EditorChangeOutput(c, s, file, e);
      var s1 := Edit(c, s, Key(StudentEdit, file), e);
      AttemptItemsAreAttempts(c, s, e);
      if RevisesAgent(s, file, e) {
        assert Step(c, s, e).output[|s1.output|] == RevisionItem(c, s.lastAgentEdit[file], file, e);
      } else {
        assert Step(c, s, e).output == s1.output + AttemptItems(c, s, e);
      }
    }
  }

  lemma AttemptItemsAreAttempts(c: Context, s: Scan, e: Event)
    ensures forall k :: 0 <= k < |AttemptItems(c, s, e)| ==> AttemptItems(c, s, e)[k].category == FixAttempted
  {
  }

  /**
   A student change is reported as revising agent work exactly when it follows the latest agent
   edit of its file within an hour and no earlier revision was remembered under the same key.
   */
  lemma RevisionReportedExactly(c: Context, p: seq<Event>, e: Event)
    requires TimeSorted(p + [e]) && e.payload.FileChanged?
    ensures var before, after, file := Run(c, p).output, Run(c, p + [e]).output, e.payload.file;
            && (forall a :: Revision(p + [e], |p|, a) && !RevisedBefore(p, RevisionKey(p[a], file)) ==>
                  exists k :: |before| <= k < |after| && after[k] == RevisionItem(c, p[a], file, e))
            && ((forall a :: Revision(p + [e], |p|, a) ==> RevisedBefore(p, RevisionKey(p[a], file))) ==>
                  forall k :: |before| <= k < |after| ==> after[k].category != RevisedAgentWork)
  {
    var s := Run(c, p);
    TimeSortedPrefix(p, e);
    RevisionsHold(c, p);
    ChangesIsExact(c, p, e);
    RevisionIsExact(p, s, e);
    RevisionOutput(c, s, e);
  }

  // ----- The remembered key -----

  /** f is g after one to nine digits. */
  predicate DigitsThen(f: string, g: string) {
    |g| < |f| <= |g| + 9 && f[|f| - |g|..] == g && forall i :: 0 <= i < |f| - |g| ==> Digit(f[i])
  }

  /** A valid source id ends in digits, so a longer id with the same key continues into the shorter one's file name. */
  lemma LongerIdGivesDigits(id: string, file: string, id': string, file': string)
    requires ValidSourceId(id) && ValidSourceId(id') && id + file == id' + file' && |id| < |id'|
    ensures DigitsThen(file, file')
  {
    var key := id + file;
    var n := |id'| - |id|;
    assert file == key[|id|..] && file' == key[|id'|..];
    assert file[n..] == file';
    forall i | 0 <= i < n ensures Digit(file[i]) {
      assert file[i] == key[|id| + i] == id'[|id| + i];
    }
  }

  /** Two different pairs share a key only if one file name is the other after one to nine digits. */
  lemma RevisionKeyInjective(id: string, file: string, id': string, file': string)
    requires ValidSourceId(id) && ValidSourceId(id') && id + file == id' + file'
    requires !DigitsThen(file, file') && !DigitsThen(file', file)
    ensures id == id' && file == file'
  {
    if |id| < |id'| {
      LongerIdGivesDigits(id, file, id', file');
    } else if |id'| < |id| {
      LongerIdGivesDigits(id', file', id, file);
    } else {
      var key := id + file;
      assert id == key[..|id|] && id' == key[..|id'|];
      assert file == key[|id|..] && file' == key[|id'|..];
    }
  }

  /**
   A first revision of an agent edit in a file is reported, unless the name of a file revised before is that of this
   one after digits, or the other way round.
   */
  lemma FirstRevisionReported(c: Context, p: seq<Event>, e: Event, a: int)
    requires TimeSorted(p + [e]) && e.payload.FileChanged? && Revision(p + [e], |p|, a)
    requires forall i :: 0 <= i < |p| ==> ValidSourceId(SourceId(p[i]))
    requires forall i, b :: Revision(p, i, b) ==>
               !DigitsThen(p[i].payload.file, e.payload.file) && !DigitsThen(e.payload.file, p[i].payload.file)
    requires forall i, b :: Revision(p, i, b) && p[i].payload.file == e.payload.file ==>
               SourceId(p[b]) != SourceId(p[a])
    ensures exists k :: |Run(c, p).output| <= k < |Run(c, p + [e]).output|
              && Run(c, p + [e]).output[k] == RevisionItem(c, p[a], e.payload.file, e)
  {
    var p1, file := p + [e], e.payload.file;
    assert p1[|p|] == e;
    if RevisedBefore(p, RevisionKey(p[a], file)) {
      var i, b :| RevisedWithKey(p, i, b, RevisionKey(p[a], file));
      assert p1[i] == p[i];
      RevisionKeyInjective(SourceId(p[b]), p[i].payload.file, SourceId(p[a]), file);
    }
    RevisionReportedExactly(c, p, e);
  }

  function Journalled(payload: Payload, source: Surface, id: string, at: int): Event {
    Event(payload, source, Some(id), "", "", Some(at), "w", None, false)
  }

  const STREAM := "00000000-0000-0000-0000-000000000000"

  /**
   Concretely: with an agent edit of "2.ts" recorded as number 1 and one of ".ts" as number 12 in
   the same journal, the student's revision of ".ts" is not reported, because "…:1" + "2.ts" and
   "…:12" + ".ts" are one key.
   */
  lemma RevisionLost(c: Context)
    ensures var p := [Journalled(AgentFilesChanged(["2.ts"]), Chat, STREAM + ":1", 0),
                      Journalled(FileChanged("2.ts"), Editor, STREAM + ":2", 1),
                      Journalled(AgentFilesChanged([".ts"]), Chat, STREAM + ":12", 2)];
            var e := Journalled(FileChanged(".ts"), Editor, STREAM + ":13", 3);
            && Revision(p + [e], 3, 2)
            && forall k :: |Run(c, p).output| <= k < |Run(c, p + [e]).output| ==>
                Run(c, p + [e]).output[k].category != RevisedAgentWork
  {
    var p := [Journalled(AgentFilesChanged(["2.ts"]), Chat, STREAM + ":1", 0),
              Journalled(FileChanged("2.ts"), Editor, STREAM + ":2", 1),
              Journalled(AgentFilesChanged([".ts"]), Chat, STREAM + ":12", 2)];
    var e := Journalled(FileChanged(".ts"), Editor, STREAM + ":13", 3);
    var p1 := p + [e];
    assert p1[0] == p[0] && p1[1] == p[1] && p1[2] == p[2] && p1[3] == e;
    assert "2.ts" == "2" + ".ts" && ":1" + "2" == ":12";
    assert (STREAM + ":1") + "2.ts" == (STREAM + ":12") + ".ts";
    assert RevisedWithKey(p, 1, 0, RevisionKey(p[2], ".ts"));
    assert Revision(p1, 3, 2);
    forall a | Revision(p1, |p|, a) ensures RevisedBefore(p, RevisionKey(p[a], ".ts")) {
      assert a == 2;
    }
    RevisionReportedExactly(c, p, e);
  }
}
