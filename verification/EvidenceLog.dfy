/**
 The items about fixes in a whole log: which ones the pass of deriveLearningEvidence
 (packages/education/src/learning-evidence.ts) leaves in the output, in order, and that no failure has two.
 */
module EvidenceLog {
  import opened Common
  import opened Evidence
  import opened EvidenceFixes
  import opened EvidenceGroups

  function InCategory(category: Category): Item -> bool {
    (item: Item) => item.category == category
  }

  function OfCategory(category: Category, items: seq<Item>): seq<Item> {
    Filter(InCategory(category), items)
  }

  // ----- What a step adds to a category that is not an edit -----

  lemma {:induction false} FilterUpdate<T(!new)>(p: T -> bool, s: seq<T>, i: nat, x: T)
    requires i < |s| && !p(s[i]) && !p(x)
    ensures Filter(p, s[i := x]) == Filter(p, s)
  {
    var n := |s| - 1;
    if i < n {
      FilterUpdate(p, s[..n], i, x);
      assert s[i := x][..n] == s[..n][i := x];
    } else {
      assert s[i := x][..n] == s[..n];
    }
  }

  lemma OneOfCategory(category: Category, item: Item)
    ensures OfCategory(category, [item]) == if item.category == category then [item] else []
  {
    var s := [item];
    assert s[..|s| - 1] == [] && s[|s| - 1] == item;
    assert InCategory(category)(item) == (item.category == category);
    assert OfCategory(category, []) == [] && [] + [item] == [item];
  }

  lemma AppendOne(category: Category, items: seq<Item>, item: Item)
    ensures OfCategory(category, items + [item])
         == if item.category == category then OfCategory(category, items) + [item] else OfCategory(category, items)
  {
    FilterAppend(InCategory(category), items, [item]);
    OneOfCategory(category, item);
    assert OfCategory(category, items) + [] == OfCategory(category, items);
  }

  lemma AppendMaybe(category: Category, items: seq<Item>, more: seq<Item>)
    requires |more| <= 1
    ensures OfCategory(category, items + more)
         == if |more| == 1 && more[0].category == category then OfCategory(category, items) + more
             else OfCategory(category, items)
  {
    if |more| == 1 {
      assert more == [more[0]];
      AppendOne(category, items, more[0]);
    } else {
      assert items + more == items;
    }
  }

  /** An edit leaves the items of every other category as they are. */
  lemma EditKeepsOthers(c: Context, s: Scan, journal: seq<(Key, Event)>, key: Key, e: Event, category: Category)
    requires GroupInv(c, s, journal) && EditCategory(key.category) && !EditCategory(category)
    ensures OfCategory(category, Edit(c, s, key, e).output) == OfCategory(category, s.output)
  {
    if Joins(s, key, e) {
      var index := s.grouped[key].index;
      assert KeyInv(c, s, journal, key);
      IndexPointsAtOwnItem(c, s, journal, key);
      FilterUpdate(InCategory(category), s.output, index, Edit(c, s, key, e).output[index]);
    } else {
      AppendOne(category, s.output, OpenedItem(c, key, e));
    }
  }

  lemma {:induction false} AgentEditsKeepOthers(c: Context, s: Scan, journal: seq<(Key, Event)>, files: seq<string>,
                                                e: Event, category: Category)
    requires GroupInv(c, s, journal) && !EditCategory(category)
    ensures OfCategory(category, AgentEdits(c, s, files, e).output) == OfCategory(category, s.output)
  {
    if files != [] {
      var init := files[..|files| - 1];
      AgentEditsKeepOthers(c, s, journal, init, e, category);
      AgentEditsKeepGroups(c, s, journal, init, e);
      EditKeepsOthers(c, AgentEdits(c, s, init, e), journal + AgentEntries(init, e), Key(AgentEdit, files[|files| - 1]),
          e, category);
    }
  }

  /** What a student change adds to a derived category. */
  lemma EditorChangeAdds(c: Context, s: Scan, journal: seq<(Key, Event)>, file: string, e: Event, category: Category)
    requires GroupInv(c, s, journal) && DerivedCategory(category)
    ensures OfCategory(category, EditorChange(c, s, file, e).output)
         == OfCategory(category, s.output) + ChangeItems(c, s, file, e, category)
  {
    EditorChangeParts(c, s, file, e);
    EditKeepsOthers(c, s, journal, Key(StudentEdit, file), e, category);
    RelatedItemsAre(c, s, file, e);
    TwoMore(category, Edit(c, s, Key(StudentEdit, file), e).output, RevisionItems(c, s, file, e),
        AttemptItems(c, s, e));
  }

  function ChangeItems(c: Context, s: Scan, file: string, e: Event, category: Category): seq<Item> {
    if category == FixAttempted then AttemptItems(c, s, e)
    else if category == RevisedAgentWork then RevisionItems(c, s, file, e)
    else []
  }

  predicate AtMostOne(items: seq<Item>, category: Category) {
    |items| <= 1 && forall i :: 0 <= i < |items| ==> items[i].category == category
  }

  lemma RelatedItemsAre(c: Context, s: Scan, file: string, e: Event)
    ensures AtMostOne(RevisionItems(c, s, file, e), RevisedAgentWork) && AtMostOne(AttemptItems(c, s, e), FixAttempted)
  {
  }

  lemma TwoMore(category: Category, items: seq<Item>, revisions: seq<Item>, attempts: seq<Item>)
    requires DerivedCategory(category) && AtMostOne(revisions, RevisedAgentWork) && AtMostOne(attempts, FixAttempted)
    ensures OfCategory(category, items + revisions + attempts)
         == OfCategory(category, items)
            + if category == FixAttempted then attempts else if category == RevisedAgentWork then revisions else []
  {
    AppendMaybe(category, items, revisions);
    AppendMaybe(category, items + revisions, attempts);
    assert OfCategory(category, items) + [] == OfCategory(category, items);
  }

  /** The items of a derived category that a step adds. */
  function DerivedItems(c: Context, s: Scan, e: Event, category: Category): seq<Item> {
    if category == FixVerified && e.payload.TestPassed? then VerifiedItems(c, s, e)
    else if Changes(s, e) then ChangeItems(c, s, e.payload.file, e, category)
    else []
  }

  lemma PassAdds(c: Context, s: Scan, e: Event, category: Category)
    requires e.payload.TestPassed? && DerivedCategory(category)
    ensures OfCategory(category, Step(c, s, e).output)
         == OfCategory(category, s.output) + DerivedItems(c, s, e, category)
  {
    PassOutput(c, s, e);
    AppendOne(category, s.output, PassedItem(c, e));
    AppendMaybe(category, s.output + [PassedItem(c, e)], VerifiedItems(c, s, e));
    assert OfCategory(category, s.output) + [] == OfCategory(category, s.output);
  }

  /** The other steps that are no edits add at most one item, of a category of their own. */
  lemma OtherStepAdds(c: Context, s: Scan, e: Event, category: Category)
    requires !EditEvent(e) && !e.payload.TestPassed? && DerivedCategory(category)
    ensures OfCategory(category, Step(c, s, e).output) == OfCategory(category, s.output)
  {
    var more := OtherStepPushes(c, s, e);
    AppendMaybe(category, s.output, more);
  }

  lemma FileChangeAdds(c: Context, s: Scan, journal: seq<(Key, Event)>, e: Event, category: Category)
    requires GroupInv(c, s, journal) && DerivedCategory(category) && e.payload.FileChanged?
    ensures OfCategory(category, Step(c, s, e).output)
         == OfCategory(category, s.output) + DerivedItems(c, s, e, category)
  {
    assert OfCategory(category, s.output) + [] == OfCategory(category, s.output);
    if Changes(s, e) { EditorChangeAdds(c, s, journal, e.payload.file, e, category); }
  }

  lemma OtherEditAdds(c: Context, s: Scan, journal: seq<(Key, Event)>, e: Event, category: Category)
    requires GroupInv(c, s, journal) && DerivedCategory(category) && EditEvent(e) && !e.payload.FileChanged?
    ensures OfCategory(category, Step(c, s, e).output) == OfCategory(category, s.output)
  {
    match e.payload
    case AutocompleteAccepted(file) =>
      if e.source == Editor { EditKeepsOthers(c, s, journal, Key(AutocompleteEdit, file), e, category); }
    case AgentFilesChanged(files) => if e.source == Chat { AgentEditsKeepOthers(c, s, journal, files, e, category); }
  }

  /**
   Only passes add fix_verified items, and only student changes add fix_attempted and student_revised_agent_work
   items; no step changes one.
   */
  lemma StepAdds(c: Context, s: Scan, journal: seq<(Key, Event)>, e: Event, category: Category)
    requires GroupInv(c, s, journal) && DerivedCategory(category)
    ensures OfCategory(category, Step(c, s, e).output)
         == OfCategory(category, s.output) + DerivedItems(c, s, e, category)
  {
    assert OfCategory(category, s.output) + [] == OfCategory(category, s.output);
    if e.payload.FileChanged? {
      FileChangeAdds(c, s, journal, e, category);
    } else if e.payload.TestPassed? {
      PassAdds(c, s, e, category);
    } else if EditEvent(e) {
      OtherEditAdds(c, s, journal, e, category);
    } else {
      OtherStepAdds(c, s, e, category);
    }
  }

  lemma RunAdds(c: Context, p: seq<Event>, e: Event, category: Category)
    requires TimeSorted(p) && DerivedCategory(category)
    ensures OfCategory(category, Run(c, p + [e]).output)
         == OfCategory(category, Run(c, p).output) + DerivedItems(c, Run(c, p), e, category)
  {
    GroupsHold(c, p);
    StepAdds(c, Run(c, p), Journal(p), e, category);
    RunSnoc(c, p, e);
  }

  // ----- Verified fixes of a log -----

  /** Positions of a failure, its first attempt and the pass that verifies the fix. */
  datatype Fix = Fix(failure: int, change: int, pass: int)

  ghost predicate FixAt(q: seq<Event>, fix: Fix) {
    && 0 <= fix.pass < |q| && q[fix.pass].payload.TestPassed?
    && Fixes(q[..fix.pass], fix.failure, fix.change, q[fix.pass])
  }

  /** All verified fixes of the log, in the order of their passes. */
  ghost predicate AllFixes(q: seq<Event>, fixes: seq<Fix>) {
    && (forall fix :: fix in fixes <==> FixAt(q, fix))
    && (forall n, m :: 0 <= n < m < |fixes| ==> fixes[n].pass < fixes[m].pass)
  }

  function FixItem(c: Context, q: seq<Event>, fix: Fix): Item
    requires 0 <= fix.failure < |q| && 0 <= fix.change < |q| && 0 <= fix.pass < |q|
  {
    VerifiedItem(c, q[fix.failure], q[fix.change], q[fix.pass])
  }

  ghost predicate ItemsMatch(c: Context, q: seq<Event>, fixes: seq<Fix>, items: seq<Item>) {
    && |items| == |fixes|
    && forall n :: 0 <= n < |fixes| ==> FixAt(q, fixes[n]) && items[n] == FixItem(c, q, fixes[n])
  }

  lemma FixInPrefix(p: seq<Event>, e: Event, fix: Fix)
    requires fix.pass < |p|
    ensures FixAt(p + [e], fix) <==> FixAt(p, fix)
  {
    if 0 <= fix.pass { assert (p + [e])[..fix.pass] == p[..fix.pass]; }
  }

  lemma FixAtEnd(p: seq<Event>, e: Event, fix: Fix)
    requires fix.pass == |p|
    ensures FixAt(p + [e], fix) <==> e.payload.TestPassed? && Fixes(p, fix.failure, fix.change, e)
  {
    assert (p + [e])[..|p|] == p;
  }

  lemma FixUnique(p: seq<Event>, e: Event, f: int, i: int, f': int, i': int)
    requires Fixes(p, f, i, e) && Fixes(p, f', i', e)
    ensures f == f' && i == i'
  {
    OpenFailureUnique(p, f, f');
    FirstAttemptUnique(p, f, i, i');
  }

  lemma NoFixAdded(p: seq<Event>, e: Event, fixes: seq<Fix>)
    requires AllFixes(p, fixes) && (e.payload.TestPassed? ==> forall f, i :: !Fixes(p, f, i, e))
    ensures AllFixes(p + [e], fixes)
  {
    forall fix ensures fix in fixes <==> FixAt(p + [e], fix) {
      if fix.pass < |p| { FixInPrefix(p, e, fix); } else if fix.pass == |p| { FixAtEnd(p, e, fix); }
    }
  }

  lemma FixAdded(p: seq<Event>, e: Event, fixes: seq<Fix>, f: int, i: int)
    requires AllFixes(p, fixes) && e.payload.TestPassed? && Fixes(p, f, i, e)
    ensures AllFixes(p + [e], fixes + [Fix(f, i, |p|)])
  {
    var last := Fix(f, i, |p|);
    forall fix ensures fix in fixes + [last] <==> FixAt(p + [e], fix) {
      if fix.pass < |p| {
        FixInPrefix(p, e, fix);
      } else if fix.pass == |p| {
        FixAtEnd(p, e, fix);
        if Fixes(p, fix.failure, fix.change, e) { FixUnique(p, e, f, i, fix.failure, fix.change); }
        assert fix in fixes ==> FixAt(p, fix);
      }
    }
    forall n | 0 <= n < |fixes| ensures fixes[n].pass < |p| {
      assert fixes[n] in fixes;
    }
  }

  lemma MatchInPrefix(c: Context, p: seq<Event>, e: Event, fixes: seq<Fix>, items: seq<Item>)
    requires ItemsMatch(c, p, fixes, items)
    ensures ItemsMatch(c, p + [e], fixes, items)
  {
    forall n | 0 <= n < |fixes| ensures FixAt(p + [e], fixes[n]) && items[n] == FixItem(c, p + [e], fixes[n]) {
      FixInPrefix(p, e, fixes[n]);
    }
  }

  lemma VerifiedNext(c: Context, p: seq<Event>, e: Event, fixes: seq<Fix>) returns (fixes': seq<Fix>)
    requires TimeSorted(p) && AllFixes(p, fixes) && ItemsMatch(c, p, fixes, OfCategory(FixVerified, Run(c, p).output))
    ensures AllFixes(p + [e], fixes') && ItemsMatch(c, p + [e], fixes', OfCategory(FixVerified, Run(c, p + [e]).output))
  {
    RunAdds(c, p, e, FixVerified);
    VerifiesIsExact(c, p, e);
    MatchInPrefix(c, p, e, fixes, OfCategory(FixVerified, Run(c, p).output));
    if e.payload.TestPassed? && VerifiesFix(Run(c, p), e) {
      var f, i :| Fixes(p, f, i, e);
      FixAdded(p, e, fixes, f, i);
      FixAtEnd(p, e, Fix(f, i, |p|));
      fixes' := fixes + [Fix(f, i, |p|)];
    } else {
      NoFixAdded(p, e, fixes);
      fixes' := fixes;
    }
  }

  /**
   The fix_verified items of the output of a log are, in order, exactly those of its verified fixes: the
   passes whose latest earlier test failed within the hour, with the failure and its first attempt.
   */
  lemma {:induction false} VerifiedInLog(c: Context, q: seq<Event>) returns (fixes: seq<Fix>)
    requires TimeSorted(q)
    ensures AllFixes(q, fixes) && ItemsMatch(c, q, fixes, OfCategory(FixVerified, Run(c, q).output))
  {
    if q == [] {
      fixes := [];
    } else {
      InitAndLast(q);
      TimeSortedPrefix(q[..|q| - 1], q[|q| - 1]);
      fixes := VerifiedInLog(c, q[..|q| - 1]);
      fixes := VerifiedNext(c, q[..|q| - 1], q[|q| - 1], fixes);
    }
  }

  /** No failure has two fix_verified items in the output of a log. */
  lemma OneVerifiedItemPerFailure(c: Context, q: seq<Event>) returns (fixes: seq<Fix>)
    requires TimeSorted(q)
    ensures ItemsMatch(c, q, fixes, OfCategory(FixVerified, Run(c, q).output))
    ensures forall n, m :: 0 <= n < m < |fixes| ==> fixes[n].failure != fixes[m].failure
  {
    fixes := VerifiedInLog(c, q);
    forall n, m | 0 <= n < m < |fixes| ensures fixes[n].failure != fixes[m].failure {
      if fixes[n].failure == fixes[m].failure {
        OneVerificationPerFailure(q, fixes[n].failure, fixes[n].pass, fixes[n].change, fixes[m].pass, fixes[m].change);
      }
    }
  }

  // ----- Attempted fixes of a log -----

  /** Positions of a failure and of its first attempt. */
  datatype Start = Start(failure: int, change: int)

  ghost predicate StartAt(q: seq<Event>, start: Start) {
    0 <= start.change < |q| && StartsFix(q[..start.change], start.failure, q[start.change])
  }

  ghost predicate AllStarts(q: seq<Event>, starts: seq<Start>) {
    && (forall start :: start in starts <==> StartAt(q, start))
    && (forall n, m :: 0 <= n < m < |starts| ==> starts[n].change < starts[m].change)
  }

  ghost predicate StartItemsMatch(c: Context, q: seq<Event>, starts: seq<Start>, items: seq<Item>) {
    && |items| == |starts|
    && forall n :: 0 <= n < |starts| ==>
         StartAt(q, starts[n]) && 0 <= starts[n].failure < |q|
             && items[n] == AttemptItem(c, q[starts[n].failure], q[starts[n].change])
  }

  lemma StartInPrefix(p: seq<Event>, e: Event, start: Start)
    requires start.change < |p|
    ensures StartAt(p + [e], start) <==> StartAt(p, start)
  {
    if 0 <= start.change { assert (p + [e])[..start.change] == p[..start.change]; }
  }

  lemma StartAtEnd(p: seq<Event>, e: Event, start: Start)
    requires start.change == |p|
    ensures StartAt(p + [e], start) <==> StartsFix(p, start.failure, e)
  {
    assert (p + [e])[..|p|] == p;
  }

  lemma NoStartAdded(p: seq<Event>, e: Event, starts: seq<Start>)
    requires AllStarts(p, starts) && forall f :: !StartsFix(p, f, e)
    ensures AllStarts(p + [e], starts)
  {
    forall start ensures start in starts <==> StartAt(p + [e], start) {
      if start.change < |p| { StartInPrefix(p, e, start); } else if start.change == |p| { StartAtEnd(p, e, start); }
    }
  }

  lemma StartAdded(p: seq<Event>, e: Event, starts: seq<Start>, f: int)
    requires AllStarts(p, starts) && StartsFix(p, f, e)
    ensures AllStarts(p + [e], starts + [Start(f, |p|)])
  {
    var last := Start(f, |p|);
    forall start ensures start in starts + [last] <==> StartAt(p + [e], start) {
      if start.change < |p| {
        StartInPrefix(p, e, start);
      } else if start.change == |p| {
        StartAtEnd(p, e, start);
        if StartsFix(p, start.failure, e) { OpenFailureUnique(p, f, start.failure); }
        assert start in starts ==> StartAt(p, start);
      }
    }
    forall n | 0 <= n < |starts| ensures starts[n].change < |p| {
      assert starts[n] in starts;
    }
  }

  lemma StartsMatchInPrefix(c: Context, p: seq<Event>, e: Event, starts: seq<Start>, items: seq<Item>)
    requires StartItemsMatch(c, p, starts, items)
    ensures StartItemsMatch(c, p + [e], starts, items)
  {
    forall n | 0 <= n < |starts|
      ensures StartAt(p + [e], starts[n]) && 0 <= starts[n].failure < |p + [e]|
              && items[n] == AttemptItem(c, (p + [e])[starts[n].failure], (p + [e])[starts[n].change]) {
      StartInPrefix(p, e, starts[n]);
    }
  }

  lemma AttemptedNext(c: Context, p: seq<Event>, e: Event, starts: seq<Start>) returns (starts': seq<Start>)
    requires TimeSorted(p) && TimeSorted(p + [e]) && AllStarts(p, starts)
    requires StartItemsMatch(c, p, starts, OfCategory(FixAttempted, Run(c, p).output))
    ensures AllStarts(p + [e], starts')
    ensures StartItemsMatch(c, p + [e], starts', OfCategory(FixAttempted, Run(c, p + [e]).output))
  {
    RunAdds(c, p, e, FixAttempted);
    AttemptsIsExact(c, p, e);
    StartsMatchInPrefix(c, p, e, starts, OfCategory(FixAttempted, Run(c, p).output));
    if Changes(Run(c, p), e) && AttemptsFix(Run(c, p), e) {
      var f :| StartsFix(p, f, e);
      StartAdded(p, e, starts, f);
      StartAtEnd(p, e, Start(f, |p|));
      starts' := starts + [Start(f, |p|)];
    } else {
      NoStartAdded(p, e, starts);
      starts' := starts;
    }
  }

  /**
   The fix_attempted items of the output of a log are, in order, exactly those of the first attempts at its failures.
   */
  lemma {:induction false} AttemptedInLog(c: Context, q: seq<Event>) returns (starts: seq<Start>)
    requires TimeSorted(q)
    ensures AllStarts(q, starts) && StartItemsMatch(c, q, starts, OfCategory(FixAttempted, Run(c, q).output))
  {
    if q == [] {
      starts := [];
    } else {
      InitAndLast(q);
      TimeSortedPrefix(q[..|q| - 1], q[|q| - 1]);
      starts := AttemptedInLog(c, q[..|q| - 1]);
      starts := AttemptedNext(c, q[..|q| - 1], q[|q| - 1], starts);
    }
  }

  /** No failure has two fix_attempted items in the output of a log. */
  lemma OneAttemptedItemPerFailure(c: Context, q: seq<Event>) returns (starts: seq<Start>)
    requires TimeSorted(q)
    ensures StartItemsMatch(c, q, starts, OfCategory(FixAttempted, Run(c, q).output))
    ensures forall n, m :: 0 <= n < m < |starts| ==> starts[n].failure != starts[m].failure
  {
    starts := AttemptedInLog(c, q);
    forall n, m | 0 <= n < m < |starts| ensures starts[n].failure != starts[m].failure {
      if starts[n].failure == starts[m].failure {
        OneAttemptPerFailure(q, starts[n].failure, starts[n].change, starts[m].change);
      }
    }
  }
}
