/**
 Which passing tests verify a fix and which changes attempt one, stated on the event history alone
 (packages/education/src/learning-evidence.ts).
 */
module EvidenceFixes {
  import opened Common
  import opened Evidence
  import opened EvidenceGroups

  // ----- Failed test, student change, passing test -----

  predicate TestEvent(e: Event) {
    e.payload.TestFailed? || e.payload.TestPassed?
  }

  /** The latest test event of the history is the failure at f. */
  ghost predicate OpenFailure(p: seq<Event>, f: int) {
    0 <= f < |p| && p[f].payload.TestFailed? && forall j :: f < j < |p| ==> !TestEvent(p[j])
  }

  /** The student changed a file at i, after the failure at f and within an hour of it. */
  ghost predicate Attempts(p: seq<Event>, f: int, i: int) {
    0 <= f < i < |p| && StudentChange(p, i) && Time(p[i]) - Time(p[f]) <= RELATED_MS
  }

  ghost predicate FirstAttempt(p: seq<Event>, f: int, i: int) {
    Attempts(p, f, i) && forall j :: f < j < i ==> !Attempts(p, f, j)
  }

  /** Event e, arriving after p, comes within an hour of the open failure f, whose first attempt is i. */
  ghost predicate Fixes(p: seq<Event>, f: int, i: int, e: Event) {
    OpenFailure(p, f) && FirstAttempt(p, f, i) && Time(e) - Time(p[f]) <= RELATED_MS
  }

  /** Event e, arriving after p, is the first attempt at the open failure f. */
  ghost predicate StartsFix(p: seq<Event>, f: int, e: Event) {
    OpenFailure(p, f) && FirstAttempt(p + [e], f, |p|)
  }

  ghost predicate FailureTracked(p: seq<Event>, f: int, failure: Event, attempted: Option<Event>) {
    && OpenFailure(p, f) && p[f] == failure
    && (attempted.None? ==> forall i :: !Attempts(p, f, i))
    && (attempted.Some? ==> exists i :: FirstAttempt(p, f, i) && p[i] == attempted.value)
  }

  ghost predicate FixInv(p: seq<Event>, failed: Option<Event>, attempted: Option<Event>) {
    && (failed.None? ==> attempted.None? && forall f :: !OpenFailure(p, f))
    && (failed.Some? ==> exists f :: FailureTracked(p, f, failed.value, attempted))
  }

  lemma PrefixStudentChange(p: seq<Event>, e: Event, i: nat)
    requires i < |p|
    ensures StudentChange(p + [e], i) == StudentChange(p, i)
  {
    if p[i].payload.FileChanged? { PrefixEcho(p, e, i); }
  }

  lemma PrefixAttempts(p: seq<Event>, e: Event, f: int)
    ensures forall i :: i < |p| ==> Attempts(p + [e], f, i) == Attempts(p, f, i)
  {
    forall i | 0 <= i < |p| ensures StudentChange(p + [e], i) == StudentChange(p, i) {
      PrefixStudentChange(p, e, i);
    }
  }

  lemma PrefixOpenFailure(p: seq<Event>, e: Event)
    requires !TestEvent(e)
    ensures forall f :: OpenFailure(p + [e], f) == OpenFailure(p, f)
  {
    forall f | 0 <= f < |p| ensures OpenFailure(p + [e], f) == OpenFailure(p, f) {
      assert (p + [e])[f] == p[f];
      if OpenFailure(p + [e], f) {
        forall j | f < j < |p| ensures !TestEvent(p[j]) { assert (p + [e])[j] == p[j]; }
      }
    }
  }

  lemma FailureOpens(p: seq<Event>, e: Event)
    requires e.payload.TestFailed?
    ensures FixInv(p + [e], Some(e), None)
  {
    assert FailureTracked(p + [e], |p|, e, None);
  }

  lemma PassCloses(p: seq<Event>, e: Event)
    requires e.payload.TestPassed?
    ensures FixInv(p + [e], None, None)
  {
    var p1 := p + [e];
    assert TestEvent(p1[|p|]);
  }

  /** An event that is no test may become the first attempt at the open failure. */
  lemma ChangeTracked(p: seq<Event>, e: Event, f: int, failure: Event, attempted: Option<Event>)
    requires !TestEvent(e) && FailureTracked(p, f, failure, attempted)
    ensures var starts := attempted.None? && StudentChange(p + [e], |p|) && Time(e) - Time(failure) <= RELATED_MS;
            FailureTracked(p + [e], f, failure, if starts then Some(e) else attempted)
  {
    var p1 := p + [e];
    PrefixOpenFailure(p, e);
    PrefixAttempts(p, e, f);
    assert p1[f] == p[f] && p1[|p|] == e;
    assert OpenFailure(p1, f);
    if attempted.Some? {
      var i :| FirstAttempt(p, f, i) && p[i] == attempted.value;
      assert FirstAttempt(p1, f, i) && p1[i] == p[i];
    } else if StudentChange(p1, |p|) && Time(e) - Time(failure) <= RELATED_MS {
      assert FirstAttempt(p1, f, |p|);
    } else {
      assert forall i :: !Attempts(p1, f, i);
    }
  }

  // ----- What each step does to failed and attempted -----

  function FailedAfter(s: Scan, e: Event): Option<Event> {
    if e.payload.TestFailed? then Some(e) else if e.payload.TestPassed? then None else s.failed
  }

  predicate Changes(s: Scan, e: Event) {
    e.payload.FileChanged? && e.source == Editor && !EchoesCompletion(s, e.payload.file, e)
  }

  function AttemptedAfter(s: Scan, e: Event): Option<Event> {
    if TestEvent(e) then None else if Changes(s, e) && AttemptsFix(s, e) then Some(e) else s.attempted
  }

  lemma EditorChangeFix(c: Context, s: Scan, file: string, e: Event)
    ensures var s1 := EditorChange(c, s, file, e);
            s1.failed == s.failed && s1.attempted == if AttemptsFix(s, e) then Some(e) else s.attempted
  {
    var s1 := Edit(c, s, Key(StudentEdit, file), e);
    assert s1.failed == s.failed && s1.attempted == s.attempted;
    var s2 := Revise(c, s1, file, e);
    assert s2.failed == s1.failed && s2.attempted == s1.attempted;
  }

  predicate SameFix(s: Scan, s1: Scan) {
    s1.failed == s.failed && s1.attempted == s.attempted
  }

  lemma PromptFix(c: Context, s: Scan, learnMode: bool, e: Event)
    ensures SameFix(s, LearnTurn(c, s, learnMode, e))
  {
  }

  lemma ProgressFix(c: Context, s: Scan, approved: bool, e: Event)
    ensures SameFix(s, Progress(c, s, approved, e))
  {
  }

  lemma CompletionFix(c: Context, s: Scan, file: string, e: Event)
    ensures SameFix(s, Completion(c, s, file, e))
  {
  }

  lemma TestFix(c: Context, s: Scan, e: Event)
    ensures Fail(c, s, e).failed == Some(e) && Fail(c, s, e).attempted == None
    ensures Pass(c, s, e).failed == None && Pass(c, s, e).attempted == None
  {
  }

  lemma FileChangedFix(c: Context, s: Scan, file: string, e: Event)
    requires e.payload == FileChanged(file)
    ensures Step(c, s, e).failed == s.failed
    ensures Step(c, s, e).attempted == if Changes(s, e) && AttemptsFix(s, e) then Some(e) else s.attempted
  {
    EditorChangeFix(c, s, file, e);
  }

  /** A step that is neither a test nor a file change leaves the failure and the attempt as they are. */
  lemma UnrelatedStepFix(c: Context, s: Scan, e: Event)
    requires !TestEvent(e) && !e.payload.FileChanged?
    ensures SameFix(s, Step(c, s, e))
  {
    match e.payload
    case LearningProgress(approved) => ProgressFix(c, s, approved, e);
    case AutocompleteAccepted(file) => CompletionFix(c, s, file, e);
    case AgentFilesChanged(files) => AgentEditsFrame(c, s, files, e);
    case ChatPrompted(learnMode) => PromptFix(c, s, learnMode, e);
    case QuestionCompleted =>
    case OtherActivity =>
  }

  lemma StepFix(c: Context, s: Scan, e: Event)
    ensures Step(c, s, e).failed == FailedAfter(s, e)
    ensures Step(c, s, e).attempted == AttemptedAfter(s, e)
  {
    if TestEvent(e) {
      TestFix(c, s, e);
    } else if e.payload.FileChanged? {
      FileChangedFix(c, s, e.payload.file, e);
    } else {
      UnrelatedStepFix(c, s, e);
    }
  }

  /** The pass recognises a student change exactly as the history does. */
  lemma ChangesIsExact(c: Context, p: seq<Event>, e: Event)
    requires TimeSorted(p + [e])
    ensures Changes(Run(c, p), e) <==> StudentChange(p + [e], |p|)
  {
    assert (p + [e])[|p|] == e;
    if e.payload.FileChanged? { EchoIsExact(c, p, e); }
  }

  lemma FixStep(p: seq<Event>, s: Scan, e: Event)
    requires FixInv(p, s.failed, s.attempted)
    requires Changes(s, e) <==> StudentChange(p + [e], |p|)
    ensures FixInv(p + [e], FailedAfter(s, e), AttemptedAfter(s, e))
  {
    if e.payload.TestFailed? {
      FailureOpens(p, e);
    } else if e.payload.TestPassed? {
      PassCloses(p, e);
    } else if s.failed.Some? {
      var f :| FailureTracked(p, f, s.failed.value, s.attempted);
      ChangeTracked(p, e, f, s.failed.value, s.attempted);
    } else {
      PrefixOpenFailure(p, e);
    }
  }

  lemma {:induction false} FixHolds(c: Context, p: seq<Event>)
    requires TimeSorted(p)
    ensures FixInv(p, Run(c, p).failed, Run(c, p).attempted)
  {
    if p != [] {
      var q, e := p[..|p| - 1], p[|p| - 1];
      InitAndLast(p);
      FixHolds(c, q);
      ChangesIsExact(c, q, e);
      FixStep(q, Run(c, q), e);
      StepFix(c, Run(c, q), e);
      RunSnoc(c, q, e);
    }
  }

  lemma OpenFailureUnique(p: seq<Event>, f: int, g: int)
    requires OpenFailure(p, f) && OpenFailure(p, g)
    ensures f == g
  {
    assert TestEvent(p[f]) && TestEvent(p[g]);
  }

  lemma FirstAttemptUnique(p: seq<Event>, f: int, i: int, k: int)
    requires FirstAttempt(p, f, i) && FirstAttempt(p, f, k)
    ensures i == k
  {
    assert Attempts(p, f, i) && Attempts(p, f, k);
  }

  /** A failure that is open is the only open one, and its first attempt is the only first one. */
  lemma TrackedIsUnique(p: seq<Event>, f: int, g: int, failure: Event, attempted: Option<Event>)
    requires FailureTracked(p, g, failure, attempted) && OpenFailure(p, f)
    ensures f == g
    ensures forall i :: FirstAttempt(p, f, i) ==> attempted == Some(p[i])
  {
    OpenFailureUnique(p, f, g);
    forall i | FirstAttempt(p, f, i) ensures attempted == Some(p[i]) {
      assert Attempts(p, f, i);
      var k :| FirstAttempt(p, g, k) && p[k] == attempted.value;
      FirstAttemptUnique(p, f, i, k);
    }
  }

  /** The pass verifies a fix exactly when the history holds one. */
  lemma VerifiesIsExact(c: Context, p: seq<Event>, e: Event)
    requires TimeSorted(p)
    ensures forall f, i :: Fixes(p, f, i, e) ==>
              VerifiesFix(Run(c, p), e) && Run(c, p).failed == Some(p[f]) && Run(c, p).attempted == Some(p[i])
    ensures VerifiesFix(Run(c, p), e) ==> exists f, i :: Fixes(p, f, i, e)
  {
    var s := Run(c, p);
    FixHolds(c, p);
    forall f, i | Fixes(p, f, i, e) ensures VerifiesFix(s, e) && s.failed == Some(p[f]) && s.attempted == Some(p[i]) {
      var g :| FailureTracked(p, g, s.failed.value, s.attempted);
      TrackedIsUnique(p, f, g, s.failed.value, s.attempted);
    }
    if VerifiesFix(s, e) {
      var g :| FailureTracked(p, g, s.failed.value, s.attempted);
      var i :| FirstAttempt(p, g, i) && p[i] == s.attempted.value;
      assert Fixes(p, g, i, e);
    }
  }

  lemma PassOutput(c: Context, s: Scan, e: Event)
    requires e.payload.TestPassed?
    ensures Step(c, s, e).output == s.output + [PassedItem(c, e)] + VerifiedItems(c, s, e)
  {
    var s1 := Emit(s, [PassedItem(c, e)]);
    assert VerifiedItems(c, s1, e) == VerifiedItems(c, s, e);
  }

  /**
   A passing test adds a test_passed item, and a fix_verified item exactly when the latest test
   before it failed at most an hour earlier and some unsuppressed student change within an hour of
   the failure lies between; the item refers to the failure, the first such change, and the pass.
   */
  lemma FixVerifiedExactly(c: Context, p: seq<Event>, e: Event)
    requires TimeSorted(p) && e.payload.TestPassed?
    ensures var before, after := Run(c, p).output, Run(c, p + [e]).output;
            && (forall f, i :: Fixes(p, f, i, e) ==>
                after == before + [PassedItem(c, e), VerifiedItem(c, p[f], p[i], e)])
            && ((forall f, i :: !Fixes(p, f, i, e)) ==> after == before + [PassedItem(c, e)])
  {
    var s := Run(c, p);
    RunSnoc(c, p, e);
    PassOutput(c, s, e);
    VerifiesIsExact(c, p, e);
    forall f, i | Fixes(p, f, i, e)
      ensures Step(c, s, e).output == s.output + [PassedItem(c, e), VerifiedItem(c, p[f], p[i], e)]
    {
      assert VerifiedItems(c, s, e) == [VerifiedItem(c, p[f], p[i], e)];
    }
    if forall f, i :: !Fixes(p, f, i, e) {
      assert s.output + [PassedItem(c, e)] + [] == s.output + [PassedItem(c, e)];
    }
  }

  /** One failure verifies at most one fix, whatever follows it. */
  lemma OneVerificationPerFailure(q: seq<Event>, f: int, k: nat, i: int, k': nat, i': int)
    requires k <= k' < |q| && q[k].payload.TestPassed? && q[k'].payload.TestPassed?
    requires Fixes(q[..k], f, i, q[k]) && Fixes(q[..k'], f, i', q[k'])
    ensures k == k' && i == i'
  {
    forall j | f < j < k' ensures !TestEvent(q[j]) {
      assert q[..k'][j] == q[j];
    }
    assert TestEvent(q[k]);
    FirstAttemptUnique(q[..k], f, i, i');
  }

  lemma AttemptsInPrefix(p: seq<Event>, p1: seq<Event>, f: int, k: nat)
    requires p <= p1 && k < |p|
    ensures Attempts(p1, f, k) == Attempts(p, f, k)
  {
    forall j | 0 <= j < |p| ensures p1[j] == p[j] {}
    if p[k].payload.FileChanged? {
      assert Echo(p1, k) == Echo(p, k);
    }
  }

  /** A failure has at most one first attempt, whatever follows it. */
  lemma OneAttemptPerFailure(q: seq<Event>, f: int, k: nat, k': nat)
    requires k <= k' < |q| && StartsFix(q[..k], f, q[k]) && StartsFix(q[..k'], f, q[k'])
    ensures k == k'
  {
    var p, p1 := q[..k] + [q[k]], q[..k'] + [q[k']];
    assert p == q[..k + 1] && p1 == q[..k' + 1];
    AttemptsInPrefix(p, p1, f, k);
    assert Attempts(p, f, k);
  }

  lemma TimeSortedPrefix(p: seq<Event>, e: Event)
    requires TimeSorted(p + [e])
    ensures TimeSorted(p)
  {
    assert forall i :: 0 <= i < |p| ==> (p + [e])[i] == p[i];
  }

  lemma AttemptsIsExact(c: Context, p: seq<Event>, e: Event)
    requires TimeSorted(p + [e])
    ensures forall f :: StartsFix(p, f, e) ==>
              Changes(Run(c, p), e) && AttemptsFix(Run(c, p), e) && Run(c, p).failed == Some(p[f])
    ensures Changes(Run(c, p), e) && AttemptsFix(Run(c, p), e) ==> exists f :: StartsFix(p, f, e)
  {
    var s, p1 := Run(c, p), p + [e];
    assert p1[|p|] == e;
    TimeSortedPrefix(p, e);
    FixHolds(c, p);
    ChangesIsExact(c, p, e);
    forall f | StartsFix(p, f, e) ensures Changes(s, e) && AttemptsFix(s, e) && s.failed == Some(p[f]) {
      var g :| FailureTracked(p, g, s.failed.value, s.attempted);
      TrackedIsUnique(p, f, g, s.failed.value, s.attempted);
      assert p1[f] == p[f];
      if s.attempted.Some? {
        var i :| FirstAttempt(p, g, i) && p[i] == s.attempted.value;
        AttemptsInPrefix(p, p1, f, i);
      }
    }
    if Changes(s, e) && AttemptsFix(s, e) {
      var f :| FailureTracked(p, f, s.failed.value, s.attempted);
      assert p1[f] == p[f];
      PrefixAttempts(p, e, f);
      assert Attempts(p1, f, |p|);
      assert StartsFix(p, f, e);
    }
  }

  lemma EditorChangeParts(c: Context, s: Scan, file: string, e: Event)
    ensures EditorChange(c, s, file, e).output
         == Edit(c, s, Key(StudentEdit, file), e).output + RevisionItems(c, s, file, e) + AttemptItems(c, s, e)
  {
    var s1 := Edit(c, s, Key(StudentEdit, file), e);
    assert RevisionItems(c, s1, file, e) == RevisionItems(c, s, file, e);
    var s2 := Revise(c, s1, file, e);
    assert AttemptItems(c, s2, e) == AttemptItems(c, s, e);
  }

  lemma EditorChangeOutput(c: Context, s: Scan, file: string, e: Event)
    ensures var s1 := Edit(c, s, Key(StudentEdit, file), e);
            EditorChange(c, s, file, e).output == s1.output + RevisionItems(c, s, file, e) + AttemptItems(c, s, e)
    ensures |s.output| <= |Edit(c, s, Key(StudentEdit, file), e).output|
    ensures forall k :: |s.output| <= k < |Edit(c, s, Key(StudentEdit, file), e).output| ==>
              Edit(c, s, Key(StudentEdit, file), e).output[k].category == StudentEdit
  {
    EditorChangeParts(c, s, file, e);
  }

  lemma NoAttemptItem(c: Context, s: Scan, file: string, e: Event)
    requires !AttemptsFix(s, e)
    ensures AttemptItems(c, s, e) == []
    ensures forall k :: 0 <= k < |RevisionItems(c, s, file, e)| ==>
              RevisionItems(c, s, file, e)[k].category == RevisedAgentWork
  {
  }

  /**
   A student change adds a fix_attempted item, the last item of its step, exactly when it is the
   first unsuppressed change within an hour of the open failure; the item refers to both.
   */
  lemma FixAttemptedExactly(c: Context, p: seq<Event>, e: Event)
    requires TimeSorted(p + [e]) && e.payload.FileChanged?
    ensures var before, after := Run(c, p).output, Run(c, p + [e]).output;
            && (forall f :: StartsFix(p, f, e) ==> |after| > |before| && after[|after| - 1] == AttemptItem(c, p[f], e))
            && ((forall f :: !StartsFix(p, f, e)) ==> forall k :: |before| <= k < |after| ==>
                after[k].category != FixAttempted)
  {
    RunSnoc(c, p, e);
    AttemptsIsExact(c, p, e);
    AttemptOutput(c, Run(c, p), e);
  }

  /** What a file change adds: nothing, or items of which the last is the attempt if there is one. */
  lemma AttemptOutput(c: Context, s: Scan, e: Event)
    requires e.payload.FileChanged?
    ensures var after := Step(c, s, e).output;
            && (Changes(s, e) && AttemptsFix(s, e) ==>
                  |after| > |s.output| && after[|after| - 1] == AttemptItem(c, s.failed.value, e))
            && (!(Changes(s, e) && AttemptsFix(s, e)) ==>
                  forall k :: |s.output| <= k < |after| ==> after[k].category != FixAttempted)
  {
    if Changes(s, e) {
      EditorChangeOutput(c, s, e.payload.file, e);
      if AttemptsFix(s, e) {
        assert AttemptItems(c, s, e) == [AttemptItem(c, s.failed.value, e)];
      } else {
        NoAttemptItem(c, s, e.payload.file, e);
      }
    }
  }
}
