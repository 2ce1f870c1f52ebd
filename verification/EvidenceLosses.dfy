/**
 A revision that the evidence does not report (packages/education/src/learning-evidence.ts), shown on the whole
 projection, with its selection and ordering of the input.
 */
module EvidenceLosses {
  import opened Common
  import opened Evidence
  import opened EvidenceGroups
  import opened EvidenceLog
  import opened EvidenceRevisions
  import opened EvidenceStability
  import Sorting

  const WINDOW := Window("p", "w", "s", None, Some(0), Some(3), None)

  const FIRST_EDIT := Journalled(AgentFilesChanged(["2.ts"]), Chat, STREAM + ":1", 0)
  const FIRST_CHANGE := Journalled(FileChanged("2.ts"), Editor, STREAM + ":2", 1)
  const SECOND_EDIT := Journalled(AgentFilesChanged([".ts"]), Chat, STREAM + ":12", 2)
  const SECOND_CHANGE := Journalled(FileChanged(".ts"), Editor, STREAM + ":13", 3)

  /** The agent edits "2.ts" and the student revises it; then the agent edits ".ts" and the student revises that. */
  function Story(): seq<Event> {
    [FIRST_EDIT, FIRST_CHANGE, SECOND_EDIT, SECOND_CHANGE]
  }

  lemma StreamIdIsValid(number: string)
    requires 1 <= |number| <= 10 && '1' <= number[0] <= '9' && forall i :: 0 <= i < |number| ==> Digit(number[i])
    ensures ValidSourceId(STREAM + ":" + number)
  {
    var id := STREAM + ":" + number;
    assert |STREAM| == 36;
    assert forall i :: 0 <= i < 36 ==> Digit(STREAM[i]) || STREAM[i] == '-';
    forall i | 0 <= i < 36 ensures Digit(id[i]) || id[i] == '-' { assert id[i] == STREAM[i]; }
    forall i | 37 <= i < |id| ensures id[i] == number[i - 37] {}
  }

  lemma StoryIsSelected(h: Host)
    ensures Selected(Context(h, WINDOW), Story()) == Story()
    ensures forall e :: e in Story() ==> Selects(WINDOW, e)
  {
    StreamIdIsValid("1");
    StreamIdIsValid("2");
    StreamIdIsValid("12");
    StreamIdIsValid("13");
    assert SourceId(FIRST_EDIT) == STREAM + ":" + "1" && SourceId(FIRST_CHANGE) == STREAM + ":" + "2";
    assert SourceId(SECOND_EDIT) == STREAM + ":" + "12" && SourceId(SECOND_CHANGE) == STREAM + ":" + "13";
    FilterAll(Selector(WINDOW), Story());
  }

  lemma StoryIsOrdered(h: Host)
    requires CollatesIds(h)
    ensures Ordered(Context(h, WINDOW), Story()) == Story()
  {
    var le := EventOrder(h);
    StoryIsSelected(h);
    EventOrderIsTotal(h);
    StoryTimes(h);
    Sorting.SortSorted(le, Story());
    Sorting.SortMultiset(le, Story());
    StoryDoesNotTie(h);
    Sorting.SortedUnique(le, Sorting.Sort(le, Story()), Story());
  }

  lemma StoryTimes(h: Host)
    ensures Sorting.Sorted(EventOrder(h), Story()) && TimeSorted(Story())
    ensures forall i :: 0 <= i < |Story()| ==> Time(Story()[i]) == i
  {
  }

  lemma StoryDoesNotTie(h: Host)
    ensures Sorting.NoTies(EventOrder(h), multiset(Story()))
  {
    StoryTimes(h);
  }

  // ----- The revisions reported for the story -----

  lemma FirstEditOnly(c: Context)
    ensures var s := Run(c, [FIRST_EDIT]);
            OfCategory(RevisedAgentWork, s.output) == [] && "2.ts" in s.lastAgentEdit
                && s.lastAgentEdit["2.ts"] == FIRST_EDIT
  {
    var p: seq<Event> := [];
    assert p + [FIRST_EDIT] == [FIRST_EDIT];
    RunAdds(c, p, FIRST_EDIT, RevisedAgentWork);
    assert OfCategory(RevisedAgentWork, Run(c, p).output) == [];
  }

  lemma FirstTwo(c: Context)
    ensures var items := OfCategory(RevisedAgentWork, Run(c, [FIRST_EDIT] + [FIRST_CHANGE]).output);
            forall item :: item in items ==> item == RevisionItem(c, FIRST_EDIT, "2.ts", FIRST_CHANGE)
  {
    FirstEditOnly(c);
    RunAdds(c, [FIRST_EDIT], FIRST_CHANGE, RevisedAgentWork);
  }

  lemma NothingReported(c: Context, p: seq<Event>, e: Event)
    requires e.payload.FileChanged?
    requires forall k :: |Run(c, p).output| <= k < |Run(c, p + [e]).output| ==>
               Run(c, p + [e]).output[k].category != RevisedAgentWork
    ensures DerivedItems(c, Run(c, p), e, RevisedAgentWork) == []
  {
    RunSnoc(c, p, e);
    RevisionOutput(c, Run(c, p), e);
  }

  lemma SecondIsLost(c: Context)
    ensures OfCategory(RevisedAgentWork, Run(c, Story()).output)
         == OfCategory(RevisedAgentWork, Run(c, [FIRST_EDIT] + [FIRST_CHANGE]).output)
    ensures Revision(Story(), 3, 2)
  {
    var two := [FIRST_EDIT] + [FIRST_CHANGE];
    var three := two + [SECOND_EDIT];
    assert three == [FIRST_EDIT, FIRST_CHANGE, SECOND_EDIT] && three + [SECOND_CHANGE] == Story();
    RunAdds(c, two, SECOND_EDIT, RevisedAgentWork);
    RunAdds(c, three, SECOND_CHANGE, RevisedAgentWork);
    RevisionLost(c);
    NothingReported(c, three, SECOND_CHANGE);
    var items := OfCategory(RevisedAgentWork, Run(c, two).output);
    assert items + [] == items;
  }

  /**
   In whatever order the log records the story, and whatever else it holds that the window does not select: the
   student's revision of ".ts" is the first one of that agent edit, and no item of the evidence reports it.
   */
  lemma RevisionMissingInEvidence(h: Host, others: seq<Event>, log: seq<Event>)
    requires CollatesIds(h)
    requires multiset(log) == multiset(Story()) + multiset(others)
    requires forall e :: e in multiset(others) ==> !Selects(WINDOW, e)
    ensures Ordered(Context(h, WINDOW), log) == Story() && Revision(Story(), 3, 2)
    ensures forall i, b :: Revision(Story()[..3], i, b) ==> SourceId(Story()[b]) != SourceId(Story()[2])
    ensures forall item :: item in Projection(Context(h, WINDOW), log) && item.category == RevisedAgentWork ==>
              item == RevisionItem(Context(h, WINDOW), FIRST_EDIT, "2.ts", FIRST_CHANGE)
  {
    var c := Context(h, WINDOW);
    StoryIsSelected(h);
    StoryIsOrdered(h);
    StoryInAnyOrder(h, others, log);
    SecondIsLost(c);
    FirstTwo(c);
    forall item | item in Projection(c, log) && item.category == RevisedAgentWork
      ensures item == RevisionItem(c, FIRST_EDIT, "2.ts", FIRST_CHANGE) {
      ReportedIsRaw(c, log, item);
    }
    FirstOfItsEdit();
  }

  /** Without a reflection, an item of the evidence is one of the raw items of its category. */
  lemma ReportedIsRaw(c: Context, log: seq<Event>, item: Item)
    requires ValidWindow(c.window) && Sorting.TotalPreorder(c.host.collate) && c.window.reflectionConfirmedAt.None?
    requires item in Projection(c, log)
    ensures item in OfCategory(item.category, Run(c, Ordered(c, log)).output)
  {
    var raw := Run(c, Ordered(c, log)).output;
    var dropped := ProjectionIsSortedTail(c, log);
    assert ReflectionItems(c) == [] && raw + [] == raw;
    assert item in multiset(Projection(c, log));
    assert item in multiset(raw);
    FilterMembers(InCategory(item.category), raw);
  }

  lemma FirstOfItsEdit()
    ensures forall i, b :: Revision(Story()[..3], i, b) ==> SourceId(Story()[b]) != SourceId(Story()[2])
  {
    var three := Story()[..3];
    assert three == [FIRST_EDIT, FIRST_CHANGE, SECOND_EDIT];
    forall i, b | Revision(three, i, b) ensures SourceId(Story()[b]) != SourceId(Story()[2]) {
      assert i == 1 && b == 0;
      assert (STREAM + ":1")[|STREAM + ":1" | - 1] == '1' && |STREAM + ":12"| == |STREAM + ":1"| + 1;
    }
  }

  lemma StoryInAnyOrder(h: Host, others: seq<Event>, log: seq<Event>)
    requires CollatesIds(h)
    requires multiset(log) == multiset(Story()) + multiset(others)
    requires forall e :: e in multiset(others) ==> !Selects(WINDOW, e)
    ensures Ordered(Context(h, WINDOW), log) == Story()
  {
    var c := Context(h, WINDOW);
    StoryIsSelected(h);
    StoryIsOrdered(h);
    SelectedContents(c, Story(), others, log);
    StoryDoesNotTie(h);
    EventOrderIsTotal(h);
    Sorting.SortOrderIndependent(EventOrder(h), Selected(c, Story()), Selected(c, log));
  }

  // ----- Which file names can share a key -----

  ghost predicate KeysCollide(file: string, file': string) {
    exists id, id' :: ValidSourceId(id) && ValidSourceId(id') && id != id' && id + file == id' + file'
  }

  lemma DigitsGiveCollision(file: string, file': string)
    requires DigitsThen(file, file')
    ensures KeysCollide(file, file')
  {
    var digits := file[..|file| - |file'|];
    var id, id' := STREAM + ":" + "1", STREAM + ":" + ("1" + digits);
    StreamIdIsValid("1");
    StreamIdIsValid("1" + digits);
    assert file == digits + file';
    assert id + file == id' + file';
    assert |id| < |id'|;
  }

  /** Two file names can share a key exactly when one is the other after one to nine digits. */
  lemma KeysCollideExactly(file: string, file': string)
    ensures KeysCollide(file, file') <==> DigitsThen(file, file') || DigitsThen(file', file)
  {
    if KeysCollide(file, file') {
      var id, id' :| ValidSourceId(id) && ValidSourceId(id') && id != id' && id + file == id' + file';
      if !DigitsThen(file, file') && !DigitsThen(file', file) { RevisionKeyInjective(id, file, id', file'); }
    }
    if DigitsThen(file, file') { DigitsGiveCollision(file, file'); }
    if DigitsThen(file', file) {
      DigitsGiveCollision(file', file);
      var id, id' :| ValidSourceId(id) && ValidSourceId(id') && id != id' && id + file' == id' + file;
      assert id' + file == id + file';
    }
  }
}
